/** The rotating services carousel: a ring of `cardCount` cards of which the
    current one is shown in the centre, its two ring neighbours to the left
    and right, and every other card hidden; indicators mirror the current
    card, an interval timer advances it, and a horizontal drag of more than
    50 units moves it one step. */
module Carousel {
  import opened Wrappers

  /** The position class a card carries after a refresh; `Hidden` is the
      `null` position, for which no class is added. */
  datatype Position = Left | Center | Right | Hidden

  /** How the release of a drag is interpreted. */
  datatype DragAction = Stay | ToNext | ToPrev

  /** Displacement a drag must exceed, strictly, to navigate. */
  const SwipeThreshold: int := 50

  /** The card before `i` on the ring (`prev`). */
  function PrevIndex(i: int, n: int): (r: int)
    requires 0 <= i < n
    ensures 0 <= r < n
    ensures r == if i == 0 then n - 1 else i - 1
  {
    (i - 1 + n) % n
  }

  /** The card after `i` on the ring (`next`). */
  function NextIndex(i: int, n: int): (r: int)
    requires 0 <= i < n
    ensures 0 <= r < n
    ensures r == if i == n - 1 then 0 else i + 1
  {
    (i + 1) % n
  }

  /** `next` followed by `prev`, and `prev` followed by `next`, come back to
      the card they started from. */
  lemma {:induction false} NextPrevInverse(i: int, n: int)
    requires 0 <= i < n
    ensures PrevIndex(NextIndex(i, n), n) == i
    ensures NextIndex(PrevIndex(i, n), n) == i
  {
    if i == n - 1 {
      assert NextIndex(i, n) == 0;
    } else {
      assert NextIndex(i, n) == i + 1;
    }
  }

  /** `getCardPosition`: the position of card `k` when card `c` is current.
      The centre test comes first and the left test before the right one,
      so with one card that card is centred and with two cards the other
      card is always on the left. */
  function CardPosition(c: int, k: int, n: int): (r: Position)
    requires 0 <= c < n && 0 <= k < n
    ensures r == Center <==> k == c
    ensures r == Left ==> k == PrevIndex(c, n)
    ensures r == Right ==> k == NextIndex(c, n) && n >= 3
    ensures r == Hidden <==> k != c && k != PrevIndex(c, n) && k != NextIndex(c, n)
    ensures n == 2 && k != c ==> r == Left
  {
    var left := PrevIndex(c, n);
    var right := NextIndex(c, n);
    if k == c then Center
    else if k == left then Left
    else if k == right then Right
    else Hidden
  }

  /** The positions of all cards, in card order, when card `c` is current. */
  function Layout(c: int, n: int): (r: seq<Position>)
    requires 0 <= c < n
    ensures |r| == n
  {
    seq(n, k requires 0 <= k < n => CardPosition(c, k, n))
  }

  /** How many entries of `s` equal `p`. */
  function Count(s: seq<Position>, p: Position): (r: nat)
    ensures r <= |s|
  {
    if s == [] then 0 else (if s[0] == p then 1 else 0) + Count(s[1..], p)
  }

  lemma {:induction false} CountAbsent(s: seq<Position>, p: Position)
    requires forall k :: 0 <= k < |s| ==> s[k] != p
    ensures Count(s, p) == 0
  {
    if s != [] {
      CountAbsent(s[1..], p);
    }
  }

  lemma {:induction false} CountSingle(s: seq<Position>, p: Position, i: int)
    requires 0 <= i < |s| && s[i] == p
    requires forall k :: 0 <= k < |s| && k != i ==> s[k] != p
    ensures Count(s, p) == 1
  {
    if i == 0 {
      CountAbsent(s[1..], p);
    } else {
      CountSingle(s[1..], p, i - 1);
    }
  }

  /** Every entry is one of the four positions. */
  lemma {:induction false} CountTotal(s: seq<Position>)
    ensures Count(s, Left) + Count(s, Center) + Count(s, Right) + Count(s, Hidden) == |s|
  {
    if s != [] {
      CountTotal(s[1..]);
    }
  }

  /** After a refresh exactly one card is centred; one card is on the left
      once there are two cards, one on the right once there are three, and
      so at most three cards are visible. */
  lemma LayoutCensus(c: int, n: int)
    requires 0 <= c < n
    ensures Count(Layout(c, n), Center) == 1
    ensures Count(Layout(c, n), Left) == (if n >= 2 then 1 else 0)
    ensures Count(Layout(c, n), Right) == (if n >= 3 then 1 else 0)
    ensures Count(Layout(c, n), Hidden) == (if n >= 3 then n - 3 else 0)
  {
    var s := Layout(c, n);
    var l, r := PrevIndex(c, n), NextIndex(c, n);
    CountSingle(s, Center, c);
    if n >= 2 {
      assert l != c;
      CountSingle(s, Left, l);
    } else {
      CountAbsent(s, Left);
    }
    if n >= 3 {
      assert r != c && r != l;
      CountSingle(s, Right, r);
    } else {
      CountAbsent(s, Right);
    }
    CountTotal(s);
  }

  /** How a drag from `startX` to `currentX` is interpreted on release: the
      finger or pointer moving left by more than the threshold goes to the
      next card, moving right by more than it goes to the previous card. */
  function ReleaseAction(startX: int, currentX: int): (r: DragAction)
    ensures r == Stay <==> -SwipeThreshold <= startX - currentX <= SwipeThreshold
    ensures r == ToNext <==> startX - currentX > SwipeThreshold
    ensures r == ToPrev <==> startX - currentX < -SwipeThreshold
  {
    var diffX := startX - currentX;
    var magnitude := if diffX < 0 then -diffX else diffX;
    if magnitude > SwipeThreshold then
      (if diffX > 0 then ToNext else ToPrev)
    else Stay
  }

  /** The current card after releasing a drag from card `i`: a drag moves
      the carousel by at most one card, in the direction of the
      displacement, and only when the displacement exceeds the threshold. */
  function ReleasedIndex(i: int, n: int, startX: int, currentX: int): (r: int)
    requires 0 <= i < n
    ensures 0 <= r < n
    ensures -SwipeThreshold <= startX - currentX <= SwipeThreshold ==> r == i
    ensures startX - currentX > SwipeThreshold ==> r == NextIndex(i, n)
    ensures startX - currentX < -SwipeThreshold ==> r == PrevIndex(i, n)
  {
    match ReleaseAction(startX, currentX)
    case Stay => i
    case ToNext => NextIndex(i, n)
    case ToPrev => PrevIndex(i, n)
  }

  /** One carousel instance: its cards' and indicators' visible state, the
      navigation index, the drag gesture in progress and the autoplay timer.
      `liveTimers` and `nextHandle` stand for the browser's table of
      intervals created by this instance and the handles it hands out. */
  class RotatingServicesCarousel {
    const cardCount: nat
    const isPlaying: bool
    const positions: array<Position>
    const ariaCurrent: array<bool>
    const indicatorActive: array<bool>
    var currentIndex: nat
    var isDragging: bool
    var startX: int
    var currentX: int
    var autoplay: Option<nat>
    var liveTimers: set<nat>
    var nextHandle: nat

    /** Shape of the state, and the timer rule: the only live interval is
        the one whose handle is stored, so there is never more than one. */
    ghost predicate Wellformed()
      reads this
    {
      && positions.Length == cardCount
      && ariaCurrent.Length == cardCount
      && ariaCurrent != indicatorActive
      && (if cardCount == 0 then currentIndex == 0 else currentIndex < cardCount)
      && liveTimers == (if autoplay.Some? then {autoplay.value} else {})
      && 0 < nextHandle
      && (autoplay.Some? ==> 0 < autoplay.value < nextHandle && isPlaying && cardCount > 0)
    }

    /** The cards and indicators show the current index: the card layout,
        `aria-current` on exactly the current card, and exactly the
        indicator with the current index active. */
    ghost predicate Displayed()
      reads this, positions, ariaCurrent, indicatorActive
      requires Wellformed()
    {
      && cardCount > 0
      && positions[..] == Layout(currentIndex, cardCount)
      && (forall k :: 0 <= k < cardCount ==> ariaCurrent[k] == (k == currentIndex))
      && (forall j :: 0 <= j < indicatorActive.Length ==> indicatorActive[j] == (j == currentIndex))
    }

    ghost predicate Valid()
      reads this, positions, ariaCurrent, indicatorActive
    {
      Wellformed() && (cardCount > 0 ==> Displayed())
    }

    /** Construction and `init`: with no cards nothing is refreshed and no
        timer starts; otherwise the display is refreshed and autoplay starts
        unless reduced motion is preferred. */
    constructor (cards: nat, indicators: seq<bool>, reducedMotion: bool)
      ensures Valid()
      ensures fresh(positions) && fresh(ariaCurrent) && fresh(indicatorActive)
      ensures indicatorActive.Length == |indicators|
      ensures cardCount == cards && isPlaying == !reducedMotion
      ensures currentIndex == 0 && !isDragging && startX == 0 && currentX == 0
      ensures cards == 0 ==> indicatorActive[..] == indicators && autoplay == None
      ensures cards > 0 ==> (autoplay.Some? <==> !reducedMotion)
    {
      cardCount := cards;
      isPlaying := !reducedMotion;
      positions := new Position[cards](_ => Hidden);
      ariaCurrent := new bool[cards](_ => false);
      indicatorActive := new bool[|indicators|](j requires 0 <= j < |indicators| => indicators[j]);
      currentIndex := 0;
      isDragging := false;
      startX := 0;
      currentX := 0;
      autoplay := None;
      liveTimers := {};
      nextHandle := 1;
      new;
      if cards > 0 {
        UpdateCarousel();
        if isPlaying {
          StartAutoplay(reducedMotion);
        }
      }
    }

    /** `setupCards`: every card gets the position class of `getCardPosition`. */
    method SetupCards()
      requires Wellformed() && cardCount > 0
      modifies positions
      ensures positions[..] == Layout(currentIndex, cardCount)
    {
      var k := 0;
      while k < positions.Length
        invariant 0 <= k <= positions.Length
        invariant forall j :: 0 <= j < k ==> positions[j] == CardPosition(currentIndex, j, cardCount)
      {
        positions[k] := CardPosition(currentIndex, k, cardCount);
        k := k + 1;
      }
    }

    /** `updateIndicators`: only the indicator at the current index is active. */
    method UpdateIndicators()
      requires Wellformed()
      modifies indicatorActive
      ensures forall j :: 0 <= j < indicatorActive.Length ==> indicatorActive[j] == (j == currentIndex)
    {
      var j := 0;
      while j < indicatorActive.Length
        invariant 0 <= j <= indicatorActive.Length
        invariant forall i :: 0 <= i < j ==> indicatorActive[i] == (i == currentIndex)
      {
        indicatorActive[j] := j == currentIndex;
        j := j + 1;
      }
    }

    /** `updateAriaStates`: only the current card carries `aria-current`. */
    method UpdateAriaStates()
      requires Wellformed()
      modifies ariaCurrent
      ensures forall k :: 0 <= k < ariaCurrent.Length ==> ariaCurrent[k] == (k == currentIndex)
    {
      var k := 0;
      while k < ariaCurrent.Length
        invariant 0 <= k <= ariaCurrent.Length
        invariant forall i :: 0 <= i < k ==> ariaCurrent[i] == (i == currentIndex)
      {
        ariaCurrent[k] := k == currentIndex;
        k := k + 1;
      }
    }

    /** `updateCarousel`: the three refreshes together. */
    method UpdateCarousel()
      requires Wellformed() && cardCount > 0
      modifies positions, ariaCurrent, indicatorActive
      ensures Valid()
    {
      SetupCards();
      UpdateIndicators();
      UpdateAriaStates();
    }

    /** `prev`. */
    method Prev()
      requires Valid() && cardCount > 0
      modifies this`currentIndex, positions, ariaCurrent, indicatorActive
      ensures Valid()
      ensures currentIndex == PrevIndex(old(currentIndex), cardCount)
    {
      currentIndex := PrevIndex(currentIndex, cardCount);
      UpdateCarousel();
    }

    /** `next`. */
    method Next()
      requires Valid() && cardCount > 0
      modifies this`currentIndex, positions, ariaCurrent, indicatorActive
      ensures Valid()
      ensures currentIndex == NextIndex(old(currentIndex), cardCount)
    {
      currentIndex := NextIndex(currentIndex, cardCount);
      UpdateCarousel();
    }

    /** `goToSlide`: an index outside the cards changes nothing, not even the
        display. */
    method GoToSlide(index: int)
      requires Valid() && cardCount > 0
      modifies this`currentIndex, positions, ariaCurrent, indicatorActive
      ensures Valid()
      ensures 0 <= index < cardCount ==> currentIndex == index
      ensures !(0 <= index < cardCount) ==>
                currentIndex == old(currentIndex)
                && unchanged(positions) && unchanged(ariaCurrent) && unchanged(indicatorActive)
    {
      if 0 <= index < cardCount {
        currentIndex := index;
        UpdateCarousel();
      }
    }

    /** `pauseAutoplay`: clears the stored interval, if any. */
    method PauseAutoplay()
      requires Wellformed()
      modifies this`autoplay, this`liveTimers
      ensures Wellformed()
      ensures autoplay == None && liveTimers == {}
    {
      if autoplay.Some? {
        liveTimers := liveTimers - {autoplay.value};
        autoplay := None;
      }
    }

    /** `startAutoplay`: does nothing when not playing or when reduced motion
        is preferred; otherwise clears the stored interval before creating a
        new one, so the old interval never stays live beside the new one. */
    method StartAutoplay(reducedMotion: bool)
      requires Wellformed() && cardCount > 0
      modifies this`autoplay, this`liveTimers, this`nextHandle
      ensures Wellformed()
      ensures !isPlaying || reducedMotion ==>
                autoplay == old(autoplay) && liveTimers == old(liveTimers)
                && nextHandle == old(nextHandle)
      ensures isPlaying && !reducedMotion ==>
                autoplay == Some(old(nextHandle)) && liveTimers == {old(nextHandle)}
                && nextHandle == old(nextHandle) + 1
                && (old(autoplay).Some? ==> old(autoplay).value !in liveTimers)
    {
      if !isPlaying || reducedMotion {
        return;
      }
      PauseAutoplay();
      var handle := nextHandle;
      nextHandle := nextHandle + 1;
      liveTimers := liveTimers + {handle};
      autoplay := Some(handle);
    }

    /** One firing of the autoplay interval. */
    method AutoplayTick()
      requires Valid() && autoplay.Some?
      modifies this`currentIndex, positions, ariaCurrent, indicatorActive
      ensures Valid()
      ensures currentIndex == NextIndex(old(currentIndex), cardCount)
    {
      Next();
    }

    /** `mouseenter` on the container. */
    method HandleMouseEnter()
      requires Valid() && cardCount > 0
      modifies this`autoplay, this`liveTimers
      ensures Valid()
      ensures autoplay == None && liveTimers == {}
    {
      PauseAutoplay();
    }

    /** `handleTouchStart`: starts a gesture at `x`. `currentX` keeps the
        value left by the previous gesture. */
    method HandleTouchStart(x: int)
      requires Valid() && cardCount > 0
      modifies this`isDragging, this`startX, this`autoplay, this`liveTimers
      ensures Valid()
      ensures isDragging && startX == x && currentX == old(currentX)
      ensures autoplay == None && liveTimers == {}
    {
      isDragging := true;
      startX := x;
      PauseAutoplay();
    }

    /** `handleTouchMove`: follows the gesture only while one is in progress. */
    method HandleTouchMove(x: int)
      requires Valid() && cardCount > 0
      modifies this`currentX
      ensures Valid()
      ensures currentX == if isDragging then x else old(currentX)
    {
      if !isDragging {
        return;
      }
      currentX := x;
    }

    /** The swipe rule of `handleTouchEnd` and `handleMouseUp`: a horizontal
        travel beyond the threshold moves one card, against the motion. */
    method Swipe()
      requires Valid() && cardCount > 0
      modifies this`currentIndex, positions, ariaCurrent, indicatorActive
      ensures Valid()
      ensures currentIndex == ReleasedIndex(old(currentIndex), cardCount, startX, currentX)
    {
      var diffX := startX - currentX;
      if (if diffX < 0 then -diffX else diffX) > SwipeThreshold {
        if diffX > 0 {
          Next();
        } else {
          Prev();
        }
      }
    }

    /** `handleTouchEnd`: a no-op without a gesture; otherwise navigates as
        `ReleaseAction` says, ends the gesture and resumes autoplay. */
    method HandleTouchEnd(reducedMotion: bool)
      requires Valid() && cardCount > 0
      modifies this`currentIndex, this`isDragging, this`autoplay, this`liveTimers, this`nextHandle
      modifies positions, ariaCurrent, indicatorActive
      ensures Valid()
      ensures !old(isDragging) ==>
                currentIndex == old(currentIndex) && !isDragging
                && autoplay == old(autoplay) && liveTimers == old(liveTimers)
                && nextHandle == old(nextHandle)
                && unchanged(positions) && unchanged(ariaCurrent) && unchanged(indicatorActive)
      ensures old(isDragging) ==>
                !isDragging
                && currentIndex == ReleasedIndex(old(currentIndex), cardCount, startX, currentX)
                && (if isPlaying && !reducedMotion then autoplay == Some(old(nextHandle))
                    else autoplay == old(autoplay) && liveTimers == old(liveTimers)
                         && nextHandle == old(nextHandle))
    {
      if !isDragging {
        return;
      }
      Swipe();
      isDragging := false;
      if isPlaying {
        StartAutoplay(reducedMotion);
      }
    }

    /** `handleMouseDown`: as `handleTouchStart`, for the pointer. */
    method HandleMouseDown(x: int)
      requires Valid() && cardCount > 0
      modifies this`isDragging, this`startX, this`autoplay, this`liveTimers
      ensures Valid()
      ensures isDragging && startX == x && currentX == old(currentX)
      ensures autoplay == None && liveTimers == {}
    {
      isDragging := true;
      startX := x;
      PauseAutoplay();
    }

    /** `handleMouseMove`: as `handleTouchMove`, for the pointer. */
    method HandleMouseMove(x: int)
      requires Valid() && cardCount > 0
      modifies this`currentX
      ensures Valid()
      ensures currentX == if isDragging then x else old(currentX)
    {
      if !isDragging {
        return;
      }
      currentX := x;
    }

    /** `handleMouseUp`: the same release rule as `handleTouchEnd`. */
    method HandleMouseUp(reducedMotion: bool)
      requires Valid() && cardCount > 0
      modifies this`currentIndex, this`isDragging, this`autoplay, this`liveTimers, this`nextHandle
      modifies positions, ariaCurrent, indicatorActive
      ensures Valid()
      ensures !old(isDragging) ==>
                currentIndex == old(currentIndex) && !isDragging
                && autoplay == old(autoplay) && liveTimers == old(liveTimers)
                && nextHandle == old(nextHandle)
                && unchanged(positions) && unchanged(ariaCurrent) && unchanged(indicatorActive)
      ensures old(isDragging) ==>
                !isDragging
                && currentIndex == ReleasedIndex(old(currentIndex), cardCount, startX, currentX)
                && (if isPlaying && !reducedMotion then autoplay == Some(old(nextHandle))
                    else autoplay == old(autoplay) && liveTimers == old(liveTimers)
                         && nextHandle == old(nextHandle))
    {
      if !isDragging {
        return;
      }
      Swipe();
      isDragging := false;
      if isPlaying {
        StartAutoplay(reducedMotion);
      }
    }

    /** `mouseleave` on the container runs two listeners in registration
        order: the hover one restarts autoplay when playing, then the drag
        one releases any gesture, restarting autoplay a second time. The
        second start clears the first one's interval, so one stays live. */
    method HandleMouseLeave(reducedMotion: bool)
      requires Valid() && cardCount > 0
      modifies this`currentIndex, this`isDragging, this`autoplay, this`liveTimers, this`nextHandle
      modifies positions, ariaCurrent, indicatorActive
      ensures Valid() && !isDragging
      ensures currentIndex ==
                if old(isDragging) then ReleasedIndex(old(currentIndex), cardCount, startX, currentX)
                else old(currentIndex)
      ensures isPlaying && !reducedMotion ==>
                autoplay.Some? && |liveTimers| == 1 && autoplay.value >= old(nextHandle)
                && (old(autoplay).Some? ==> old(autoplay).value !in liveTimers)
      ensures isPlaying && reducedMotion ==>
                autoplay == old(autoplay) && liveTimers == old(liveTimers) && nextHandle == old(nextHandle)
      ensures !isPlaying ==> autoplay == None && liveTimers == {}
    {
      if isPlaying {
        StartAutoplay(reducedMotion);
      }
      HandleMouseUp(reducedMotion);
    }

    /** The document-wide `keydown` listener: the arrow keys navigate and
        suppress the default scrolling; other keys are ignored. */
    method HandleKeyDown(key: string) returns (preventDefault: bool)
      requires Valid() && cardCount > 0
      modifies this`currentIndex, positions, ariaCurrent, indicatorActive
      ensures Valid()
      ensures preventDefault <==> key == "ArrowLeft" || key == "ArrowRight"
      ensures currentIndex ==
                if key == "ArrowLeft" then PrevIndex(old(currentIndex), cardCount)
                else if key == "ArrowRight" then NextIndex(old(currentIndex), cardCount)
                else old(currentIndex)
    {
      preventDefault := false;
      if key == "ArrowLeft" {
        preventDefault := true;
        Prev();
      } else if key == "ArrowRight" {
        preventDefault := true;
        Next();
      }
    }
  }

  /** A press and release with no move in between is compared against the
      `currentX` of the previous gesture, which is 0 on a fresh carousel:
      pressing at 300 and releasing on the spot moves to the next card. */
  method PressWithoutMoveOnFreshCarousel() returns (index: nat, timers: nat)
    ensures index == 1
    ensures timers == 1
  {
    var c := new RotatingServicesCarousel(4, [true, false, false, false], false);
    c.HandleMouseDown(300);
    c.HandleMouseUp(false);
    index := c.currentIndex;
    timers := |c.liveTimers|;
  }
}
