# Portfolio page script: grid-line animator, contact-form validation, stagger delays

This project models the client-side logic of a portfolio site's `Portfolio` class
(`src/scripts/main.js`) and proves properties of it in Dafny.

- **Grid line** (`grid_line.dfy`, module `GridLine`). A vertical indicator grows down the page
  section by section. A section is activated when the viewport bottom is half a viewport past
  its top and its index is beyond the cursor. The activated section's cumulative height becomes
  the line's target. Activation is guarded by an in-flight flag. The scroll listener is
  throttled by a `ticking` latch and a single animation frame. The flag is cleared either at
  once, when the line would not grow, or by a 1400 ms timer. Every callback the browser can run
  (the 100 ms start-up timer, scroll, the scan frame, the height frame, the release timer, the
  800 ms iframe-reveal timer) is an `Event`. The value-level transition is `Step`, and `Run`
  plays any interleaving. The class `Animator` holds the same state as mutable fields, and each
  of its methods is proved to perform exactly the `Step` for its callback.
- **Trimming** (`js_text.dfy`, module `JsText`). JavaScript strings are sequences of UTF-16 code
  units. `String.prototype.trim` and the regular-expression class `\s` both use the ECMAScript
  WhiteSpace and LineTerminator set.
- **Contact form** (`contact_form.dfy`, module `ContactForm`). `validateField` (required,
  email pattern, minimum length), `validateForm` over the `[required]` fields, and the gating
  of `handleFormSubmit`: form, then CAPTCHA, then a configured action.
- **Stagger delays** (`stagger.dfy`, module `Stagger`). The `delay-k` classes of
  `initScrollAppear` and the `reveal-delay-i` classes of `initMobileReveal`.
- `optional.dfy` holds the `Option` datatype.

Three behaviours of the code that a reader might not expect, modelled as the code has them:

- One might expect the cursor only to move forward; it can move back. The 100 ms start-up
  activation of section 0 is not limited to indices beyond the cursor. When the sections report zero height, earlier scans can already
  have moved the cursor forward. `GridLine.StartupCanLowerCursor` shows such a trace, and
  `GridLine.OnlyStartupLowersCursor` proves that no other callback moves the cursor back.
- When an activation does not grow the line, the in-flight flag is cleared at once. No
  1400 ms timer is started in that case.
- A page with a grid line but no sections makes the start-up activation read the height of a
  missing section. That throws after the flag and the cursor were set (`Failed`), so the flag
  stays set for good.

## Model

| member | source | states |
|---|---|---|
| GridLine.Init | src/scripts/main.js:74-84 | before any callback the cursor is -1, the flag is clear, the line has height 0 and nothing is pending; the start-up timer is armed exactly when the grid line exists |
| GridLine.SumPrefixMonotone | src/scripts/main.js:132-136 | the cumulative height through a later section is never less than through an earlier one |
| GridLine.LaterTargetReachesFurther | src/scripts/main.js:132-142 | with unchanged heights, an activation of a later section has a target at least the height of sections 0..i of any earlier section i |
| GridLine.SumThrough | src/scripts/main.js:133-136 | one more pass of the summing loop adds exactly the next section's height |
| GridLine.AnimateGridLine | src/scripts/main.js:126-170 | blocked exactly when the flag is set or the index is the cursor, and then nothing changes; a missing section fails after setting flag and cursor; otherwise the target is the height of sections 0..i, a frame and the release timer are scheduled exactly when it exceeds the current height, the section-1 reveals fire only then, and a non-growing activation clears the flag |
| GridLine.FirstPassed | src/scripts/main.js:92-107 | the result is a passed section beyond the cursor with no passed section beyond the cursor before it, and nothing only when no section beyond the cursor has been passed |
| GridLine.UpdateGridLine | src/scripts/main.js:87-108 | activates the lowest passed section beyond the cursor, or changes nothing when there is none; the scan never moves the cursor back and only moves it to the section it activates |
| GridLine.StepKeepsConsistent | src/scripts/main.js:110-169 | every callback keeps the state invariant (release timer implies flag, a pending frame writes a greater height, the reveals only concern elements that exist) and never lowers the line |
| GridLine.RunKeepsConsistent | src/scripts/main.js:82-169 | under every interleaving of scrolls, frames and timers the invariant holds and the line's height never decreases |
| GridLine.OnlyStartupLowersCursor | src/scripts/main.js:87-120 | a run without the start-up timer never moves the cursor back |
| GridLine.RunAppend | src/scripts/main.js:110-120 | running two runs of callbacks one after the other is running their concatenation |
| GridLine.ScrollThenQuietScan | src/scripts/main.js:112-119 | a scroll plus its scan frame that finds section i, not taller than the line, moves the cursor to i and leaves everything else as it was |
| GridLine.FlatPageScans | src/scripts/main.js:87-120 | on three zero-height sections, three scrolls with their scans bring the cursor to 2 |
| GridLine.StartupCanLowerCursor | src/scripts/main.js:82-84 | after those scans the start-up timer sets the cursor back from 2 to 0 |
| GridLine.HeightThrough | src/scripts/main.js:133-136 | the summing loop yields the height of sections 0..i, or no value when section i does not exist |
| GridLine.Animator.constructor | src/scripts/main.js:7-12 | the new object's fields are the initial state for its page |
| GridLine.Animator.Activate | src/scripts/main.js:126-170 | the fields and outcome after `animateGridLine(i)` are exactly those of `AnimateGridLine`, and the invariant is kept |
| GridLine.Animator.Scan | src/scripts/main.js:87-108 | the scan loop activates the section `FirstPassed` chooses and changes the fields exactly as `UpdateGridLine` does, keeping the invariant |
| GridLine.Animator.InitialTimerFired | src/scripts/main.js:82-84 | performs exactly the start-up timer's `Step` and keeps the invariant |
| GridLine.Animator.OnScroll | src/scripts/main.js:112-120 | performs exactly the scroll listener's `Step` (arm the latch once) and keeps the invariant |
| GridLine.Animator.TickFired | src/scripts/main.js:114-117 | performs exactly the scan frame's `Step` and keeps the invariant |
| GridLine.Animator.FrameFired | src/scripts/main.js:144-146 | writes the pending height, which is greater than the current one |
| GridLine.Animator.ReleaseTimerFired | src/scripts/main.js:164-166 | performs exactly the release timer's `Step`: the flag is cleared |
| GridLine.Animator.IframeTimerFired | src/scripts/main.js:156-160 | performs exactly the iframe timer's `Step`: the iframe becomes visible |
| JsText.SkipSpaces | src/scripts/main.js:595 | the first index at or after i that is not white space, with only white space skipped |
| JsText.SkipSpacesBack | src/scripts/main.js:595 | the least index such that everything from it up to j is white space |
| JsText.Trim | src/scripts/main.js:595 | the result is a contiguous slice with only white space around it that neither starts nor ends with white space, and it is empty exactly when the input is all white space |
| JsText.TrimIdempotent | src/scripts/main.js:595 | trimming a trimmed value changes nothing |
| JsText.TrimUnique | src/scripts/main.js:595 | any slice of the input with non-space ends and only white space around it is the trimmed value |
| ContactForm.Message | src/scripts/main.js:600-616 | each error has its own non-empty message text |
| ContactForm.EmailCheckMatchesPattern | src/scripts/main.js:606-607 | the plain-words email check accepts exactly the strings `/^[^\s@]+@[^\s@]+\.[^\s@]+$/` matches |
| ContactForm.ValidateField | src/scripts/main.js:594-626 | on the trimmed value: "required" exactly for an empty required field, "invalid email" exactly for a non-empty email value the pattern rejects, "too short" exactly for a one-unit name or surname, and the field is valid exactly when no error is shown |
| ContactForm.RequiredFields | src/scripts/main.js:654 | holds every field of the form that carries `required`, as many times as it occurs there, and no other field |
| ContactForm.RequiredFieldsAppend | src/scripts/main.js:654 | the list is in document order: the required fields of two consecutive stretches of the form are those of the first followed by those of the second |
| ContactForm.ValidateEach | src/scripts/main.js:655-663 | the loop checks every field without stopping at a failure, records each field's update in order, and reports true exactly when all passed |
| ContactForm.ValidateForm | src/scripts/main.js:653-664 | true exactly when every required field passes `validateField`, and every required field gets its error shown or cleared |
| ContactForm.RequiredFieldsDecideValidity | src/scripts/main.js:653-664 | the form is valid exactly when each element of the required-field list passes |
| ContactForm.RequiredFieldsCover | src/scripts/main.js:654-661 | a property holds for all required fields exactly when it holds for each element of the list `querySelectorAll('[required]')` returns |
| ContactForm.CheckSubmission | src/scripts/main.js:669-693 | an invalid form is rejected with its message first, then an unsolved CAPTCHA, then a missing, empty or placeholder action; the form is sent, to its action, exactly when all three checks pass |
| Stagger.CountBefore | src/scripts/main.js:465-468 | no more earlier siblings are counted than there are earlier elements |
| Stagger.CountBeforeMonotone | src/scripts/main.js:465-468 | counting over a longer prefix never counts fewer siblings |
| Stagger.CountBeforeNone | src/scripts/main.js:465-468 | with no earlier element of the same parent the count is zero |
| Stagger.RankIncreases | src/scripts/main.js:465-468 | of two children of one parent the later has the higher position |
| Stagger.RankZero | src/scripts/main.js:465-468 | the position is 0 exactly for a parent's first animated child |
| Stagger.WithKey | src/scripts/main.js:465-467 | lists only earlier indices whose element has the given parent |
| Stagger.WithKeySize | src/scripts/main.js:465-467 | that list has one entry per earlier element with the parent |
| Stagger.SiblingIndex | src/scripts/main.js:465-468 | when a child is reached, the animated children of its parent so far end with it, and its only index there (`indexOf`) is its rank |
| Stagger.ScrollAppearDelays | src/scripts/main.js:461-472 | each child gets `delay-i` for its index i among its parent's animated children so far when i is in 1..4, and no delay otherwise; so the first child of a parent gets none, and two children of one parent never get the same delay |
| Stagger.GroupSize | src/scripts/main.js:529-535 | a section's group holds one entry per element seen in that section, and a section has a group exactly when it has at least one element |
| Stagger.GroupPosition | src/scripts/main.js:529-545 | an element sits in its section's group at the index equal to its number of earlier elements in that section |
| Stagger.MobileReveal | src/scripts/main.js:496-545 | nothing happens on viewports wider than 768 pixels; otherwise exactly the elements inside a section are revealed, each with `reveal-delay-i` for its index i in 1..5 within its section's group |

## Left out

- The DOM is not modelled. Elements, classes, `getBoundingClientRect`, `offsetHeight` and
  `style.height` are parameters: section tops, heights, field values and the keys of parents
  and sections.
- The browser's timers and animation frames are events. Their delays (100, 800 and 1400 ms)
  are not clocks; only the order in which callbacks can run is modelled.
- `parseFloat` of the style height and the 0.5 viewport factor are done in integer pixels.
  The threshold test is exact, so no floating point is involved.
- The CSS transition and easing, the IntersectionObserver reveals, smooth scrolling, the
  project preview, the lightbox, the scroll-to-top button and the contact-section animation
  are left out. They only style elements or route events to the browser.
- The network part of `handleFormSubmit` is left out: `fetch`, the response, button
  disabling, `grecaptcha.reset` and the 5 s feedback auto-hide. The model stops at the
  decision to send. The CAPTCHA is a parameter (`Captcha`).
- `showFieldError` and `clearFieldError` are modelled as the `FieldUi` value they would
  apply. The form-level `clearFormFeedback` call is not modelled.
- The `input` listener that clears an error on typing is left out; it only calls
  `clearFieldError`.
- GridLine.Animator.ReleaseTimerFired: requires that the height frame has already run. This is
  browser ordering: an animation frame is painted well within the 1400 ms of the timer
  requested beside it.
- Stagger.ScrollAppearDelays: assumes that no element carries `scroll-appear` from the markup,
  so a child's position counts only the animated elements before it.
- The build configuration (`vite.config.js`) is not part of this model.
