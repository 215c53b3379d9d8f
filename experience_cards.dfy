/** The 3D experience card stack widget: a circular index over the cards, an
    animation lock, the last touch positions, and what `updateCards` writes
    into the page (each card's position classes, each timeline point's
    `active` flag and the counter text). */
module ExperienceStack {
  import opened CardStack

  class ExperienceCards {
    /** Number of `.exp-card` elements; fixed when the widget is built. */
    const totalCards: nat
    /** The position classes of each `.exp-card`, in document order. */
    const cards: array<Marks>
    /** Whether each `.timeline-point` carries `active`, in document order. */
    const timelinePoints: array<bool>
    /** The text of `.exp-counter-current`. */
    var counterText: string

    var currentIndex: nat
    var isAnimating: bool
    var touchStartX: int
    var touchEndX: int

    /** The page shows `currentIndex`: the cards carry the classes of
        `CardMarks`, only the matching timeline point is active, and the
        counter holds the padded 1-based position. */
    ghost predicate Shown()
      reads this, cards, timelinePoints
    {
      && (forall k :: 0 <= k < cards.Length ==> cards[k] == CardMarks(k, currentIndex, totalCards))
      && (forall k :: 0 <= k < timelinePoints.Length ==> (timelinePoints[k] <==> k == currentIndex))
      && counterText == CounterText(currentIndex)
    }

    ghost predicate Valid()
      reads this, cards, timelinePoints
    {
      totalCards == cards.Length && totalCards > 0 && Shown()
    }

    /** The index names an existing card. It can fail only after `GoTo` with
        a timeline point that has no card of the same position. */
    predicate InRange()
      reads this
    {
      currentIndex < totalCards
    }

    /** The constructor together with `init`: the widget is wired only when
        there is at least one card, and its first act is `updateCards`. */
    constructor (cards: array<Marks>, timelinePoints: array<bool>)
      requires cards.Length > 0
      modifies cards, timelinePoints
      ensures Valid() && InRange()
      ensures this.cards == cards && this.timelinePoints == timelinePoints
      ensures currentIndex == 0 && !isAnimating
      ensures touchStartX == 0 && touchEndX == 0
    {
      this.cards := cards;
      this.timelinePoints := timelinePoints;
      totalCards := cards.Length;
      currentIndex := 0;
      isAnimating := false;
      touchStartX := 0;
      touchEndX := 0;
      counterText := "";
      new;
      UpdateCards();
    }

    /** Rewrites the position classes of every card, the flag of every
        timeline point and the counter from `currentIndex`. */
    method UpdateCards()
      modifies this`counterText, cards, timelinePoints
      ensures Shown()
    {
      var k := 0;
      while k < cards.Length
        invariant 0 <= k <= cards.Length
        invariant forall j :: 0 <= j < k ==> cards[j] == CardMarks(j, currentIndex, totalCards)
      {
        cards[k] := CardMarks(k, currentIndex, totalCards);
        k := k + 1;
      }
      k := 0;
      while k < timelinePoints.Length
        invariant 0 <= k <= timelinePoints.Length
        invariant forall j :: 0 <= j < k ==> (timelinePoints[j] <==> j == currentIndex)
        invariant forall j :: 0 <= j < cards.Length ==> cards[j] == CardMarks(j, currentIndex, totalCards)
      {
        timelinePoints[k] := k == currentIndex;
        k := k + 1;
      }
      counterText := CounterText(currentIndex);
    }

    /** Shows the following card, wrapping from the last to the first, unless
        an animation is still running. */
    method Next()
      requires Valid()
      modifies this, cards, timelinePoints
      ensures Valid()
      ensures old(isAnimating) ==> unchanged(this, cards, timelinePoints)
      ensures !old(isAnimating) ==> isAnimating && InRange() && currentIndex == NextIndex(old(currentIndex), totalCards)
      ensures touchStartX == old(touchStartX) && touchEndX == old(touchEndX)
    {
      if isAnimating {
        return;
      }
      isAnimating := true;
      currentIndex := NextIndex(currentIndex, totalCards);
      UpdateCards();
    }

    /** Shows the preceding card, wrapping from the first to the last, unless
        an animation is still running. */
    method Prev()
      requires Valid()
      modifies this, cards, timelinePoints
      ensures Valid()
      ensures old(isAnimating) ==> unchanged(this, cards, timelinePoints)
      ensures !old(isAnimating) ==> isAnimating && InRange() && currentIndex == PrevIndex(old(currentIndex), totalCards)
      ensures touchStartX == old(touchStartX) && touchEndX == old(touchEndX)
    {
      if isAnimating {
        return;
      }
      isAnimating := true;
      currentIndex := PrevIndex(currentIndex, totalCards);
      UpdateCards();
    }

    /** Jumps to the card of the clicked timeline point. The index is not
        checked against the number of cards; jumping to the card already
        shown does nothing and does not take the lock. */
    method GoTo(index: nat)
      requires Valid()
      requires index < timelinePoints.Length
      modifies this, cards, timelinePoints
      ensures Valid()
      ensures old(isAnimating) || index == old(currentIndex) ==> unchanged(this, cards, timelinePoints)
      ensures !old(isAnimating) && index != old(currentIndex) ==> isAnimating && currentIndex == index
      ensures InRange() <==> (if old(isAnimating) then old(InRange()) else index < totalCards)
      ensures touchStartX == old(touchStartX) && touchEndX == old(touchEndX)
    {
      if isAnimating || index == currentIndex {
        return;
      }
      isAnimating := true;
      currentIndex := index;
      UpdateCards();
    }

    /** The 700 ms timer scheduled by a move has fired: the lock is released
        and nothing else changes. */
    method AnimationDone()
      modifies this`isAnimating
      ensures !isAnimating
    {
      isAnimating := false;
    }

    /** `touchstart`: remember where the touch began. */
    method TouchStart(screenX: int)
      modifies this`touchStartX
      ensures touchStartX == screenX
    {
      touchStartX := screenX;
    }

    /** `touchend`: remember where the touch ended and act on the swipe. */
    method TouchEnd(screenX: int)
      requires Valid()
      modifies this, cards, timelinePoints
      ensures Valid()
      ensures touchEndX == screenX && touchStartX == old(touchStartX)
      ensures Moved(SwipeMove(touchStartX, screenX), old(currentIndex), old(isAnimating))
      ensures old(isAnimating) || SwipeMove(touchStartX, screenX) == Stay ==> unchanged(cards, timelinePoints)
    {
      touchEndX := screenX;
      HandleSwipe();
    }

    /** `handleSwipe` on the stored touch positions. */
    method HandleSwipe()
      requires Valid()
      modifies this, cards, timelinePoints
      ensures Valid()
      ensures touchStartX == old(touchStartX) && touchEndX == old(touchEndX)
      ensures Moved(SwipeMove(touchStartX, touchEndX), old(currentIndex), old(isAnimating))
      ensures old(isAnimating) || SwipeMove(touchStartX, touchEndX) == Stay ==> unchanged(cards, timelinePoints)
    {
      var m := SwipeMove(touchStartX, touchEndX);
      if m == Forward {
        Next();
      } else if m == Back {
        Prev();
      }
    }

    /** The document-wide `keydown` listener. */
    method KeyDown(key: string)
      requires Valid()
      modifies this, cards, timelinePoints
      ensures Valid()
      ensures touchStartX == old(touchStartX) && touchEndX == old(touchEndX)
      ensures Moved(KeyMove(key), old(currentIndex), old(isAnimating))
      ensures old(isAnimating) || KeyMove(key) == Stay ==> unchanged(cards, timelinePoints)
    {
      if key == "ArrowLeft" {
        Prev();
      } else if key == "ArrowRight" {
        Next();
      }
    }

    /** The index and lock after asking for move `m` from `oldIndex` with the
        lock in state `wasAnimating`: a held lock or `Stay` changes nothing,
        any other move takes the lock and steps the index. */
    ghost predicate Moved(m: Move, oldIndex: nat, wasAnimating: bool)
      reads this
      requires totalCards > 0
    {
      if wasAnimating || m == Stay then
        currentIndex == oldIndex && isAnimating == wasAnimating
      else
        isAnimating && currentIndex == Step(m, oldIndex, totalCards)
    }
  }

  /** A `next` followed, once its animation is over, by a `prev` shows the
      starting card again; only the lock from the second move remains. */
  method NextThenPrev(c: ExperienceCards)
    requires c.Valid() && c.InRange() && !c.isAnimating
    modifies c, c.cards, c.timelinePoints
    ensures c.Valid() && c.isAnimating
    ensures c.currentIndex == old(c.currentIndex)
  {
    c.Next();
    c.AnimationDone();
    c.Prev();
  }

  /** A `prev` followed, once its animation is over, by a `next` shows the
      starting card again. */
  method PrevThenNext(c: ExperienceCards)
    requires c.Valid() && c.InRange() && !c.isAnimating
    modifies c, c.cards, c.timelinePoints
    ensures c.Valid() && c.isAnimating
    ensures c.currentIndex == old(c.currentIndex)
  {
    c.Prev();
    c.AnimationDone();
    c.Next();
  }

  /** In every valid state the only active card is the one at `currentIndex`
      (none when the index is past the last card), and no card carries two of
      the position classes. */
  lemma ShownIsUnique(c: ExperienceCards, k: nat)
    requires c.Valid()
    requires k < c.cards.Length
    ensures c.cards[k].isActive <==> k == c.currentIndex
    ensures AtMostOne(c.cards[k])
  {
  }
}
