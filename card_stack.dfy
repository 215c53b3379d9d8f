/** The pure rules behind the 3D experience card stack: cyclic index
    arithmetic, the position class each card receives, the swipe and arrow-key
    decisions and the zero-padded counter text. The stateful widget that
    applies them is `ExperienceStack.ExperienceCards`. */
module CardStack {
  import opened Decimal

  /** The three position classes `updateCards` manages on one card. Every
      other class a card may carry is outside the model. */
  datatype Marks = Marks(isActive: bool, isPrev: bool, isNext: bool)

  const Unmarked := Marks(false, false, false)
  const ActiveMark := Marks(true, false, false)
  const PrevMark := Marks(false, true, false)
  const NextMark := Marks(false, false, true)

  predicate AtMostOne(m: Marks) {
    !(m.isActive && m.isPrev) && !(m.isActive && m.isNext) && !(m.isPrev && m.isNext)
  }

  /** Index reached by `next` from `i` among `n` cards. */
  function NextIndex(i: nat, n: nat): (r: nat)
    requires n > 0
    ensures r < n
    ensures i < n - 1 ==> r == i + 1
    ensures i == n - 1 ==> r == 0
  {
    (i + 1) % n
  }

  /** Index reached by `prev` from `i` among `n` cards. The source adds `n`
      before taking the remainder, so the operand is never negative and
      JavaScript's truncating `%` agrees with Dafny's. */
  function PrevIndex(i: nat, n: nat): (r: nat)
    requires n > 0
    ensures r < n
    ensures 0 < i <= n ==> r == i - 1
    ensures i == 0 ==> r == n - 1
  {
    (i - 1 + n) % n
  }

  /** `prev` undoes `next` and `next` undoes `prev` on an in-range index. */
  lemma PrevNextInverse(i: nat, n: nat)
    requires i < n
    ensures PrevIndex(NextIndex(i, n), n) == i
    ensures NextIndex(PrevIndex(i, n), n) == i
  {
  }

  /** The position classes of the card at `index` when `current` is shown,
      following the if / else-if chain of `updateCards`. */
  function CardMarks(index: nat, current: nat, total: nat): Marks {
    if index == current then ActiveMark
    else if index == current - 1 || (current == 0 && index == total - 1) then PrevMark
    else if index == current + 1 || (current == total - 1 && index == 0) then NextMark
    else Unmarked
  }

  /** The intended layout of a stack of at least three cards: the shown card,
      its cyclic predecessor and its cyclic successor. */
  function CyclicMarks(index: nat, current: nat, total: nat): Marks
    requires total > 0
  {
    if index == current then ActiveMark
    else if index == PrevIndex(current, total) then PrevMark
    else if index == NextIndex(current, total) then NextMark
    else Unmarked
  }

  /** Exactly the card at `current` is active, and no card carries two of the
      three classes. When `current` is past the last card, no card is active. */
  lemma CardMarksActive(index: nat, current: nat, total: nat)
    ensures CardMarks(index, current, total).isActive <==> index == current
    ensures AtMostOne(CardMarks(index, current, total))
  {
  }

  /** With three cards or more the else-if chain gives exactly the cyclic
      layout: predecessor `prev`, successor `next`, every other card plain. */
  lemma CardMarksCyclic(index: nat, current: nat, total: nat)
    requires 3 <= total && index < total && current < total
    ensures CardMarks(index, current, total) == CyclicMarks(index, current, total)
    ensures CardMarks(index, current, total).isPrev <==> index == PrevIndex(current, total)
    ensures CardMarks(index, current, total).isNext <==> index == NextIndex(current, total)
  {
  }

  /** With two cards the predecessor and the successor coincide; the
      else-if order makes the other card `prev`, never `next`. */
  lemma CardMarksTwoCards(index: nat, current: nat)
    requires index < 2 && current < 2 && index != current
    ensures CardMarks(index, current, 2) == PrevMark
  {
  }

  /** While its index is in range, a lone card is the active one. */
  lemma CardMarksOneCard(current: nat)
    requires current < 1
    ensures CardMarks(0, current, 1) == ActiveMark
  {
  }

  /** What a gesture or key asks the stack to do. */
  datatype Move = Stay | Forward | Back

  function Opposite(m: Move): Move {
    match m
    case Stay => Stay
    case Forward => Back
    case Back => Forward
  }

  /** Horizontal distance a touch must travel before it counts as a swipe. */
  const SwipeThreshold := 50

  /** `handleSwipe`: a leftward swipe longer than the threshold goes forward,
      a rightward one goes back, anything shorter does nothing. */
  function SwipeMove(touchStartX: int, touchEndX: int): (m: Move)
    ensures m == Stay <==> -SwipeThreshold <= touchStartX - touchEndX <= SwipeThreshold
    ensures m == Forward <==> touchStartX - touchEndX > SwipeThreshold
    ensures m == Back <==> touchStartX - touchEndX < -SwipeThreshold
  {
    var diff := touchStartX - touchEndX;
    var magnitude := if diff < 0 then -diff else diff;
    if magnitude > SwipeThreshold then (if diff > 0 then Forward else Back) else Stay
  }

  /** Swiping the same distance the other way asks for the opposite move. */
  lemma SwipeMoveReversed(touchStartX: int, touchEndX: int)
    ensures SwipeMove(touchEndX, touchStartX) == Opposite(SwipeMove(touchStartX, touchEndX))
  {
  }

  /** The keydown listener: `ArrowLeft` goes back, `ArrowRight` forward,
      every other key is ignored. */
  function KeyMove(key: string): (m: Move)
    ensures m == Back <==> key == "ArrowLeft"
    ensures m == Forward <==> key == "ArrowRight"
  {
    if key == "ArrowLeft" then Back else if key == "ArrowRight" then Forward else Stay
  }

  /** The index a move leads to from `i` among `n` cards. */
  function Step(m: Move, i: nat, n: nat): (r: nat)
    requires n > 0
    ensures m != Stay ==> r < n
  {
    match m
    case Stay => i
    case Forward => NextIndex(i, n)
    case Back => PrevIndex(i, n)
  }

  /** Every move is undone by its opposite. */
  lemma StepOpposite(m: Move, i: nat, n: nat)
    requires i < n
    ensures Step(Opposite(m), Step(m, i, n), n) == i
  {
  }

  /** `String(currentIndex + 1).padStart(2, '0')`: the 1-based position of the
      shown card, at least two characters wide. */
  function CounterText(current: nat): string {
    PadStart(ToDecimal(current + 1), 2, '0')
  }

  /** The counter is all digits, reads back as `current + 1`, is exactly two
      characters up to the 99th card, and carries a leading zero exactly for
      the first nine cards. */
  lemma {:induction false} CounterTextMeaning(current: nat)
    ensures AllDigits(CounterText(current))
    ensures Parse(CounterText(current)) == current + 1
    ensures current < 99 ==> |CounterText(current)| == 2
    ensures current < 99 ==> (CounterText(current)[0] == '0' <==> current < 9)
  {
    ParsePadStart(ToDecimal(current + 1), 2);
    ParseToDecimal(current + 1);
  }
}
