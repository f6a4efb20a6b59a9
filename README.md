# Rotating carousel and contact-form validation, modelled in Dafny

This project models the two stateful components of the site script
`main.js`.

**`RotatingServicesCarousel`** (`carousel.dfy`, module `Carousel`)

The class keeps the carousel's own fields:
- `currentIndex`, `isPlaying`, `isDragging`, `startX` and `currentX`;
- the autoplay interval handle.

The DOM is replaced by three arrays that the refresh methods rewrite in place:
- the position class of each card (`positions`);
- `aria-current` of each card (`ariaCurrent`);
- the active class of each indicator (`indicatorActive`).

The browser's interval table is a set of live handles (`liveTimers`), and
`nextHandle` is the next handle `setInterval` hands out. This makes the
"clear before set" rule checkable: the invariant `Wellformed` says that the only
live interval is the stored one. `Displayed` says that the arrays show the
current index. The constructor establishes `Valid`, and every navigation
method and event handler proves it keeps `Valid`. `getCardPosition`,
the ring arithmetic of `prev`/`next` and the release rule of a drag are pure
functions with their own contracts and lemmas.

**`FormValidator`** (`form.dfy`, module `ContactForm`)

The validator holds a map from field name to a record: the control's value,
its `required` flag, its `aria-invalid` attribute and its `{field}-error`
element (text and `visible` class), absent when the page has none. The
honeypot `website` input is not stored: as in the code, `validateForm`
reads it at each call, so it is a parameter of `ValidateForm` holding the
input's value at that moment.

The pure parts have their own contracts:
- the decision of `validateField` is the function `FieldVerdict`;
- the regular expression of `isValidEmail` is stated as a predicate
  (`MatchesEmailPattern`) and proved equivalent to a scanning definition;
- `isCorporateEmail` follows `split('@')[1]`, the text between the first `@`
  and the next one.

`validateForm` is a loop over the field names in declaration order. It is
proved to validate every field except the timestamp, without
short-circuiting, and to return the conjunction of their verdicts together
with the honeypot check.

A control is consistent when its `aria-invalid` marker agrees with its error
element. The page's initial markup is not assumed to be consistent. The
methods for `updateFieldState`, `validateField`, `clearFieldError`, the
`input` listener and `validateForm` keep consistency once it holds, and a
validated control with an error element is consistent afterwards in any case.

`text.dfy` (module `Text`) holds:
- whitespace (`IsSpace`);
- `trim` (`Trim`);
- the first occurrence of a character (`Find`);
- ASCII lower-casing (`Lower`).

`wrappers.dfy` holds `Option`.

Behaviour kept as the code has it:
- Pressing (`touchstart`, `mousedown`) sets `startX` but not `currentX`.
  So a press and release with no move in between is compared against the
  previous gesture's `currentX`, which is 0 on a fresh carousel.
  `PressWithoutMoveOnFreshCarousel` proves this: a press at 300 on a fresh
  carousel, released on the spot, moves to the next card.
- With two cards, the non-current card is always on the left, because
  `getCardPosition` tests left before right (main.js:62-64).
- `mouseleave` has two listeners. When playing with reduced motion off, the
  hover one restarts autoplay with a fresh interval (main.js:92). Then the
  drag one runs `handleMouseUp`, which does nothing unless a gesture is in
  progress (main.js:209); when one is, it releases the gesture and, under
  the same conditions, restarts autoplay a second time. Each of these starts
  clears the previous interval, so exactly one interval stays live. When not
  playing, no interval is live; with reduced motion on, neither listener
  touches the timer, so an interval started earlier stays live (main.js:151).
- The corporate check looks at the text after the first `@` up to the next
  `@`, not at everything after the `@` (main.js:305). For an address that
  passes the syntax check, the two are the same (`CorporateOfValidEmail`).

## Model

| member | source | states |
|---|---|---|
| Text.TrimEmptyIff | main.js:275 | `value.trim()` is empty exactly when every character is whitespace |
| Carousel.PrevIndex | main.js:107-110 | the previous index stays in [0, N); it wraps from 0 to N-1 and otherwise decreases by one |
| Carousel.NextIndex | main.js:112-115 | the next index stays in [0, N); it wraps from N-1 to 0 and otherwise increases by one |
| Carousel.NextPrevInverse | main.js:107-115 | `next` then `prev` restores the index, and so does `prev` then `next` |
| Carousel.CardPosition | main.js:57-66 | centre exactly for the current card; left only for the ring predecessor; right only for the successor, and only with at least three cards; null exactly for cards that are none of the three; with two cards the other card is left |
| Carousel.LayoutCensus | main.js:44-66 | across all cards, exactly one is centred, one is left when N ≥ 2, one is right when N ≥ 3, and the remaining N-3 (or none) are hidden, so at most three are visible |
| Carousel.ReleaseAction | main.js:181-190 | with diffX = startX - currentX: \|diffX\| ≤ 50 is a tap; diffX > 50 means next; diffX < -50 means prev (each an if-and-only-if) |
| Carousel.ReleasedIndex | main.js:178-194 | a release moves at most one card: unchanged within the threshold, `next` beyond it to the left, `prev` beyond it to the right; the result stays in [0, N) |
| Carousel.RotatingServicesCarousel.constructor | main.js:13-42 | initial fields; one indicator slot per indicator on the page; with no cards nothing is refreshed and no timer exists; otherwise the display shows card 0 and an interval is live exactly when reduced motion is off |
| Carousel.RotatingServicesCarousel.SetupCards | main.js:44-55 | every card gets the position `getCardPosition` gives it for the current index |
| Carousel.RotatingServicesCarousel.UpdateIndicators | main.js:130-138 | exactly the indicator at the current index is active |
| Carousel.RotatingServicesCarousel.UpdateAriaStates | main.js:140-148 | exactly the card at the current index carries `aria-current` |
| Carousel.RotatingServicesCarousel.UpdateCarousel | main.js:124-128 | after the three refreshes the display shows the current index (`Valid`) |
| Carousel.RotatingServicesCarousel.Prev | main.js:107-110 | the index becomes its ring predecessor and the display is refreshed |
| Carousel.RotatingServicesCarousel.Next | main.js:112-115 | the index becomes its ring successor and the display is refreshed |
| Carousel.RotatingServicesCarousel.GoToSlide | main.js:117-122 | an index in [0, N) becomes current; any other index changes neither the index nor any card or indicator |
| Carousel.RotatingServicesCarousel.PauseAutoplay | main.js:159-164 | afterwards no handle is stored and no interval of the carousel is live |
| Carousel.RotatingServicesCarousel.StartAutoplay | main.js:150-157 | nothing changes when not playing or when reduced motion is on; otherwise the old interval is cleared and exactly one new interval is live and stored |
| Carousel.RotatingServicesCarousel.AutoplayTick | main.js:154-156 | a firing of the interval advances to the ring successor |
| Carousel.RotatingServicesCarousel.HandleMouseEnter | main.js:90 | hovering leaves no live interval |
| Carousel.RotatingServicesCarousel.HandleTouchStart | main.js:167-171 | a gesture starts at x and the timer is paused; `currentX` keeps its previous value |
| Carousel.RotatingServicesCarousel.HandleTouchMove | main.js:173-176 | `currentX` follows x only while a gesture is in progress |
| Carousel.RotatingServicesCarousel.Swipe | main.js:181-190 | the index becomes `ReleasedIndex` of the gesture |
| Carousel.RotatingServicesCarousel.HandleTouchEnd | main.js:178-194 | a no-op without a gesture; otherwise the index follows the release rule, the gesture ends, and autoplay restarts with a single fresh interval when playing without reduced motion, the timer state being left as it was otherwise |
| Carousel.RotatingServicesCarousel.HandleMouseDown | main.js:197-201 | same as `HandleTouchStart`, for the pointer |
| Carousel.RotatingServicesCarousel.HandleMouseMove | main.js:203-206 | same as `HandleTouchMove`, for the pointer |
| Carousel.RotatingServicesCarousel.HandleMouseUp | main.js:208-224 | the same contract as `HandleTouchEnd`: touch and mouse release behave identically |
| Carousel.RotatingServicesCarousel.HandleMouseLeave | main.js:91-104 | the gesture, if any, is released by the drag rule; when playing without reduced motion exactly one interval is live, it is freshly created and any interval live before is cleared; when playing with reduced motion the stored handle and the live intervals stay as they were; when not playing none is live |
| Carousel.RotatingServicesCarousel.HandleKeyDown | main.js:79-87 | ArrowLeft goes to the predecessor and ArrowRight to the successor, both suppressing the default; other keys change nothing |
| Carousel.PressWithoutMoveOnFreshCarousel | main.js:197-224 | on a fresh 4-card carousel, a press at 300 and a release with no move lands on card 1 with one live interval |
| ContactForm.IsValidEmail | main.js:295-298 | `isValidEmail` as a scan: no whitespace, text before the first `@`, no second `@`, and a `.` with text on both sides after it; its meaning as the regular expression is proved in `EmailPatternIff` |
| ContactForm.EmailScanSound | main.js:295-298 | every address the scanning definition accepts matches `^[^\s@]+@[^\s@]+\.[^\s@]+$` |
| ContactForm.EmailScanComplete | main.js:295-298 | every match of the regular expression passes the scan, and its `@` is the first one |
| ContactForm.EmailPatternIff | main.js:295-298 | `isValidEmail` holds exactly when the regular expression matches |
| ContactForm.AfterFirstAt | main.js:305 | `split('@')[1]` is absent exactly when there is no `@`; otherwise it is the run of non-`@` characters right after the first `@`, ending at the next `@` or at the end |
| ContactForm.IsCorporateEmail | main.js:300-307 | `isCorporateEmail`: `split('@')[1]` exists, is non-empty and lower-cased is not a personal domain; `AfterFirstAt` states what that segment is and `CorporateOfValidEmail` what the test means for a valid address |
| ContactForm.CorporateOfValidEmail | main.js:300-307 | for a syntactically valid address, corporate holds exactly when the lower-cased text after its `@` is not one of the eight personal domains |
| ContactForm.FieldVerdict | main.js:271-289 | a failure carries one of the three messages, which is never empty |
| ContactForm.FieldVerdictRules | main.js:274-289 | required and blank fails with the required message; non-blank e-mail not matching the pattern fails with the syntax message; matching but not corporate fails with the corporate message; matching and corporate passes; blank and not required passes; other fields pass exactly when not required-and-blank |
| ContactForm.ValidAddressVerdict | main.js:281-288 | an address that passes the syntax check is judged on the lower-cased text after its `@` alone, whether the field is required or not |
| ContactForm.MatchedAddressVerdict | main.js:281-306 | the same, for an address given by the positions where the regular expression matches |
| ContactForm.PersonalAddressRefused | main.js:300-306 | `user@gmail.com` fails with the corporate message |
| ContactForm.CompanyAddressAccepted | main.js:300-306 | `user@acme.com` passes |
| ContactForm.MalformedAddressRefused | main.js:281-284 | `not-an-email` fails with the syntax message |
| ContactForm.ShowVerdict | main.js:309-319 | a failure sets `aria-invalid="true"` and shows its message; a pass sets `aria-invalid="false"`, empties the error text and hides it; the value is kept and the marker agrees with the visibility |
| ContactForm.Refreshed | main.js:265-293 | the field after `validateField` keeps its value and required flag; with an error element it ends up consistent |
| ContactForm.Cleared | main.js:321-329 | with an error element and a non-blank value, the field is marked valid and the error is hidden with its text kept; otherwise nothing changes; consistency is preserved |
| ContactForm.FormAccepted | main.js:331-349 | the form is accepted exactly when every field except the timestamp passes and the honeypot is missing or blank |
| ContactForm.HoneypotFilled | main.js:343-344 | the honeypot exists and its trimmed value is not empty; `FormAccepted` states that it rejects the form |
| ContactForm.HoneypotRejects | main.js:342-346 | a non-blank honeypot rejects the form whatever the visible fields hold |
| ContactForm.SweepStep | main.js:335-340 | validating the i-th field extends the sweep over the first i fields by that field alone; the field has not been touched before |
| ContactForm.ValidatedConsistent | main.js:331-340 | validating the fields keeps every consistent control consistent, and leaves every validated control that has an error element consistent whatever its markup before |
| ContactForm.OkStep | main.js:335-340 | the running `isFormValid` after i+1 fields is the running value after i fields and the verdict of the i-th field |
| ContactForm.FormValidator.constructor | main.js:229-240 | the validator holds the controls as the page has them, whatever their initial markup |
| ContactForm.FormValidator.UpdateFieldState | main.js:309-319 | only the named field changes, to `ShowVerdict` of the verdict |
| ContactForm.FormValidator.ValidateField | main.js:265-293 | a missing control or error element gives `true` and changes nothing; otherwise the result is the verdict and only that field is rewritten; the field is left consistent whenever it has an error element; a failing field is left marked invalid with a visible, non-empty message; consistency of the whole form is kept |
| ContactForm.FormValidator.ClearFieldError | main.js:321-329 | only the named field changes, to `Cleared` |
| ContactForm.FormValidator.HandleInput | main.js:257 | typing stores the value, then clears the field's error if the value is not blank |
| ContactForm.FormValidator.ValidateEntry | main.js:335-340 | one `forEach` step: validates the i-th field unless it is the timestamp and extends the sweep |
| ContactForm.FormValidator.ValidateFields | main.js:335-340 | the `forEach`: every field but the timestamp is validated, with no short-circuit, and the result is whether all of them passed |
| ContactForm.FormValidator.ValidateForm | main.js:331-349 | every field except the timestamp is validated, with no short-circuit; the result is the conjunction of their verdicts and the check of the honeypot as it is at the call; afterwards every validated control with an error element is consistent, and consistency of the whole form is kept |

## Left out

- DOM lookups and event wiring (main.js:68-105, 251-263) are left out. The
  event handlers are methods that a caller invokes in event order.
- Timers are modelled as handles only. `setInterval`'s 4500 ms delay and
  its timing are not modelled; one firing is `AutoplayTick`.
- The reduced-motion query (main.js:7-9) is a `reducedMotion` parameter of
  every method that reaches `startAutoplay`.
- The reduced-motion change listener is not part of this model. Its target
  instance is never assigned, so it has no effect on a carousel.
- `isPlaying` is a constant, set once in the constructor. The code assigns it
  in only one other place, that listener.
- StartAutoplay: when reduced motion is preferred, the code returns before
  `pauseAutoplay`. An interval started earlier, before the preference
  changed, therefore stays live. The model keeps this: it does not promise
  that no timer is left.
- Event handlers of the carousel require at least one card. With no cards,
  `init` returns before any listener is registered.
- Pointer coordinates (`clientX`) are integers, not floating-point numbers.
- JavaScript's Unicode `\s`, `trim()` and `toLowerCase()` are approximated:
  - whitespace is the ASCII set (space, tab, line feed, vertical tab, form
    feed, carriage return);
  - lower-casing maps only `A`-`Z`.
- `isCorporateEmail` returns a JavaScript truthy value (the domain string or
  `undefined`). The model uses its boolean meaning.
- `handleSubmit`, `simulateFormSubmission` and the `Date.now()` timestamps
  are not part of this model, so the timestamp field is never written.
  These are asynchronous and clock-dependent.
- Not part of this model: `MobileMenu`, `setupSmoothScrolling`,
  `removeDebugElements`, the debug globals and the page bootstrap.
