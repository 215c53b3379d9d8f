# Portfolio page interactivity — a Dafny model

This project models the logic of the portfolio page's client script
(`src/main.ts`). The rest of that script only wires the browser to it.

- **The 3D experience card stack** (`ExperienceCards`). It keeps a circular index over the cards and an animation lock. It also holds the last touch positions. The `next`, `prev` and `goTo` moves, the swipe decision and the arrow-key dispatch change this state. After every move, `updateCards` writes the page: which card is `active`, `prev` or `next`, which timeline point is active, and the zero-padded counter.
- **The scroll spy.** It chooses the last section whose top is within 200 pixels below the scroll offset, and marks the navigation links that point at it.
- **The mobile menu's open/closed state**, the body scroll lock that follows it, and the navbar shadow threshold.

Layout:

- `decimal.dfy` (module `Decimal`): `String(n)` for naturals and `padStart`. A digit-string parser is the partner that the round-trip lemmas use.
- `card_stack.dfy` (module `CardStack`): the pure rules of the card stack. They are cyclic `next`/`prev` arithmetic, the else-if chain that classifies a card, the swipe and key decisions, and the counter text.
- `experience_cards.dfy` (module `ExperienceStack`): the `ExperienceCards` class.
  - Each card's class list is an `array<Marks>`, and each timeline point's `active` flag an `array<bool>`.
  - Every handler keeps the invariant `Valid()`: the page shows exactly what `updateCards` computes from `currentIndex`.
  - The 700 ms `setTimeout` that releases the lock is the explicit event `AnimationDone()`.
- `scroll_spy.dfy` (module `ScrollSpy`): the scroll handler's two loops. A recursive function `CurrentId` specifies the first loop.
- `navigation.dfy` (module `Navigation`): the `MobileMenu` class and `NavbarShadow`.

`goTo` receives the position of the clicked timeline point (`src/main.ts:119-123`), and it never compares that position with the number of cards. The model therefore requires only `index < timelinePoints.Length`. If a page has more timeline points than cards, `currentIndex` can leave `[0, totalCards)`. The model keeps that state:

- `InRange()` is separate from `Valid()`;
- in that state no card is active;
- the next `next` or `prev` that the lock does not block brings the index back into range (its `ensures` says so).

## Model

| member | source | states |
|---|---|---|
| `Decimal.ToDecimal` | src/main.ts:191 | `String(n)` is a non-empty digit string with no leading zero (except for 0); it is one character exactly below 10 and two exactly from 10 to 99 |
| `Decimal.PadStart` | src/main.ts:191 | `padStart(width, fill)` is as long as the longer of `width` and `s`, ends with `s`, and everything before `s` is the fill character |
| `Decimal.ParseToDecimal` | src/main.ts:191 | reading back the decimal numeral gives the number again |
| `Decimal.ParsePadStart` | src/main.ts:191 | zero-padding keeps a digit string all digits and does not change its value |
| `CardStack.NextIndex` | src/main.ts:199 | `(i + 1) % total` is always a valid card index; it is `i + 1` before the last card and wraps to 0 from the last |
| `CardStack.PrevIndex` | src/main.ts:211 | `(i - 1 + total) % total` is always a valid card index; it is `i - 1` for `0 < i <= total` and wraps to `total - 1` from 0 |
| `CardStack.PrevNextInverse` | src/main.ts:195-217 | on an in-range index, `prev` undoes `next` and `next` undoes `prev` |
| `CardStack.CardMarks` | src/main.ts:169-175 | no contract of its own: the else-if chain as written; `CardMarksActive`, `CardMarksCyclic`, `CardMarksTwoCards` and `CardMarksOneCard` give its meaning |
| `CardStack.CardMarksActive` | src/main.ts:166-176 | a card is `active` if and only if its index is `currentIndex`, and no card carries two of `active`, `prev`, `next` |
| `CardStack.CardMarksCyclic` | src/main.ts:169-175 | with three or more cards the else-if chain equals the cyclic layout: exactly the cyclic predecessor is `prev`, exactly the cyclic successor is `next`, all others are unmarked |
| `CardStack.CardMarksTwoCards` | src/main.ts:171-174 | with two cards the card not shown is `prev`, never `next`, because the `prev` test comes first |
| `CardStack.CardMarksOneCard` | src/main.ts:169-170 | while the index is in range, a single card is the active one |
| `CardStack.SwipeMove` | src/main.ts:151-162 | with `diff = touchStartX - touchEndX`: a distance of at most 50 either way does nothing, `diff > 50` goes forward, `diff < -50` goes back |
| `CardStack.SwipeMoveReversed` | src/main.ts:151-162 | swiping the same distance the other way asks for the opposite move |
| `CardStack.KeyMove` | src/main.ts:139-145 | `ArrowLeft` and only it goes back, `ArrowRight` and only it goes forward, every other key does nothing |
| `CardStack.Step` | src/main.ts:195-217 | a `next` or `prev` move always lands on a valid card index |
| `CardStack.StepOpposite` | src/main.ts:195-217 | each move is undone by the opposite move |
| `CardStack.CounterText` | src/main.ts:191 | no contract of its own: `String(currentIndex + 1).padStart(2, '0')` as written; `CounterTextMeaning` gives its meaning |
| `CardStack.CounterTextMeaning` | src/main.ts:189-192 | the counter is all digits and reads back as `currentIndex + 1`; while `currentIndex` is below 99 it is two characters, with a leading `0` exactly for the first nine cards |
| `ExperienceStack.ExperienceCards.constructor` | src/main.ts:96-149 | a stack of at least one card starts at index 0, unlocked, with the page already showing card 0 |
| `ExperienceStack.ExperienceCards.UpdateCards` | src/main.ts:164-193 | afterwards every card carries the classes of the else-if chain for `currentIndex`, timeline point `k` is active if and only if `k == currentIndex`, and the counter shows the padded position |
| `ExperienceStack.ExperienceCards.Next` | src/main.ts:195-205 | while locked nothing changes; otherwise the lock is taken, the index becomes `(i + 1) % total` (in range) and the page shows it |
| `ExperienceStack.ExperienceCards.Prev` | src/main.ts:207-217 | while locked nothing changes; otherwise the lock is taken, the index becomes `(i - 1 + total) % total` (in range) and the page shows it |
| `ExperienceStack.ExperienceCards.GoTo` | src/main.ts:219-229 | while locked, or for the index already shown, nothing changes and the lock is not taken; otherwise the lock is taken and the index becomes the argument, in range exactly when the argument is below `totalCards` |
| `ExperienceStack.ExperienceCards.AnimationDone` | src/main.ts:202-204 | the timer callback releases the lock and touches nothing else |
| `ExperienceStack.ExperienceCards.TouchStart` | src/main.ts:128-130 | `touchstart` records the start position and nothing else |
| `ExperienceStack.ExperienceCards.TouchEnd` | src/main.ts:132-135 | `touchend` records the end position, then moves as the swipe decision says (or not at all while locked) |
| `ExperienceStack.ExperienceCards.HandleSwipe` | src/main.ts:151-162 | a short swipe or a held lock changes nothing; a long leftward swipe acts as `next`, a long rightward one as `prev` |
| `ExperienceStack.ExperienceCards.KeyDown` | src/main.ts:139-145 | `ArrowRight` acts as `next`, `ArrowLeft` as `prev`, any other key changes nothing |
| `ExperienceStack.NextThenPrev` | src/main.ts:195-217 | from an in-range unlocked state, `next`, then the timer, then `prev` return to the starting card |
| `ExperienceStack.PrevThenNext` | src/main.ts:195-217 | from an in-range unlocked state, `prev`, then the timer, then `next` return to the starting card |
| `ExperienceStack.ShownIsUnique` | src/main.ts:166-176 | in every valid state the card at `currentIndex` is the only active card, and no card carries two position classes |
| `ScrollSpy.CurrentIdNoneReached` | src/main.ts:240-248 | when no section's top is within 200 pixels below the offset, the chosen id is `''` |
| `ScrollSpy.CurrentIdLastReached` | src/main.ts:242-248 | when section `k` is reached and no later one is, its id is chosen, whatever the earlier sections |
| `ScrollSpy.FindCurrent` | src/main.ts:240-248 | the loop over the sections computes exactly `CurrentId`, the id of the last reached section or `''` |
| `ScrollSpy.HighlightLinks` | src/main.ts:250-255 | afterwards a link is active if and only if its href equals `'#'` followed by the chosen id |
| `ScrollSpy.OnScroll` | src/main.ts:239-256 | the whole handler marks exactly the links to the last reached section |
| `Navigation.MobileMenu.constructor` | src/main.ts:4-5 | the page-load state the markup is assumed to give: both flags inactive, so the button and the menu agree, and no overflow set |
| `Navigation.BodyOverflow` | src/main.ts:10 | no contract of its own: `'hidden'` for an open menu, `''` otherwise; the `MobileMenu` handlers and `Valid()` tie the body overflow to it |
| `Navigation.MobileMenu.ToggleClick` | src/main.ts:7-11 | both `active` flags flip, the overflow is `'hidden'` exactly when the menu is now open, and agreement of button and menu is preserved |
| `Navigation.MobileMenu.LinkClick` | src/main.ts:14-20 | a link click closes the menu from any state and restores the invariant |
| `Navigation.MobileMenu.DocumentClick` | src/main.ts:23-30 | the menu stays open only for a click inside `.nav-container`; a click while closed, or inside, changes nothing; closing clears the button flag and the overflow; agreement of button and menu is preserved |
| `Navigation.NavbarShadow` | src/main.ts:52-56 | no contract of its own: the raised shadow past 100 pixels, the flat one otherwise; `NavbarShadowThreshold` and `NavbarShadowMonotone` give its meaning |
| `Navigation.NavbarShadowThreshold` | src/main.ts:52-56 | the raised shadow is chosen if and only if the scroll offset is past 100 pixels |
| `Navigation.NavbarShadowMonotone` | src/main.ts:52-56 | scrolling further down never lowers a raised shadow |

## Left out

- Event-listener wiring and DOM queries are left out. The model's handlers are the listeners' bodies, and the elements they touch are fields or parameters.
- `scrollIntoView` smooth scrolling (`src/main.ts:33-44`) is left out. It is browser behaviour with no logic of its own.
- The IntersectionObserver fade-in (`src/main.ts:60-82`) is left out. The browser's observer and its fractional threshold decide when it fires.
- `DraggableScroll` (`src/main.ts:259-335`) is left out. It is fractional pixel arithmetic on layout values that the browser supplies and clamps.
- The `console.log` (`src/main.ts:340`) is left out.
- The timeline progress width (`src/main.ts:184-187`) is left out because it is floating-point percentage arithmetic. It is an unmodelled hazard: with exactly one card it divides 0 by 0 and writes `NaN%`.
- Real time is left out. The 700 ms timeout is the event `AnimationDone`, and the model does not relate how often it fires to the moves that scheduled it.
- Touch `screenX` and `pageYOffset` are modelled as integers. The browser reports them as floating-point numbers.
- ExperienceStack.ExperienceCards.constructor: it requires at least one card. With no cards the source builds an object that wires nothing; that object is not modelled.
- The optional elements `.timeline-progress`, `.exp-counter-current` and `.menu-toggle` are assumed present. When they are absent, the source skips the matching update.
- Navigation.MobileMenu.constructor: the script never sets the menu's starting state; the markup is assumed to load with neither `.menu-toggle` nor `.nav-menu` carrying `active` and with no body overflow.
- Navigation.MobileMenu.DocumentClick: whether the click target lies inside `.nav-container` is a parameter. The order in which the browser runs the toggle, link and document listeners for one click is not modelled.
- A nav link without an `href` attribute is modelled as a link whose href is a string that never matches.
