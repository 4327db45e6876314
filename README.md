# Portfolio page script: a Dafny model

A model of the deterministic logic inside the portfolio site's single browser
script, `script.js`, lifted out of the DOM. Scroll offsets, widths and touch
coordinates are integers; lists of sections, links and revealed elements are
sequences and arrays; form fields are strings.

- `carousel.dfy` (module `Carousel`): the project carousel. The class
  `ProjectCarousel` holds the page index, the grid's transform, the two
  buttons' `disabled` flags and the touch coordinates. Its methods are the
  click, swipe and resize handlers. The pure functions `Step`, `Run` and
  `SwipeAction` specify them.
- `nav_scroll.dfy` (module `NavScroll`): the navigation bar's scroll
  listener. The class `NavBar` holds `lastScroll`, the "scrolled" class and
  the transform. `Tick` and `Replay` specify single ticks and runs of ticks.
- `active_link.dfy` (module `ActiveLink`): the scroll listener that marks
  the link of the current section. It works in place on an array of
  `active` flags.
- `reveal.dfy` (module `Reveal`): `animateOnScroll`, in place on an array
  of `in-view` flags, and what a run of scroll checks leaves behind.
- `email_validation.dfy` (module `EmailValidation`): the address pattern
  `^[^\s@]+@[^\s@]+\.[^\s@]+$` as a predicate, proved equal to a plain
  description of the address shape.
- `contact_form.dfy` (module `ContactForm`): the submit handler as a
  decision from the three field values to the notification and the fields
  left behind.
- `toggles.dfy` (module `Toggles`): the "Read More" button and the
  social-link target rule.
- `wrappers.dfy` (module `Wrappers`): the `Option` type shared by the
  carousel and the active-link handler.

Three behaviours of the code worth knowing:

- `"a@@b.c"` is refused: the character class `[^\s@]` excludes a second
  `@`. `EmailValidation.Examples` proves the refusal.
- `cardWidth` is a load-time `const`, so resize only redraws the transform.
  The next click draws with the load-time width again. `Carousel.Session`
  walks through this.
- `maxIndex` is not clamped. With fewer than three cards it is negative:
  next never moves, and the index stays 0.

## Model

| member | source | states |
|---|---|---|
| `Carousel.Step` | script.js:394-399 | next adds one exactly when the index is below `maxIndex`; prev subtracts one exactly when it is above 0; otherwise the index is unchanged; the range `[0, max(0, maxIndex)]` is preserved |
| `Carousel.Run` | script.js:386-399 | any run of clicks from an in-range index stays within `[0, max(0, maxIndex)]` |
| `Carousel.NextsReach` | script.js:386-399 | `n` clicks on next from index `i` reach `min(i + n, max(0, maxIndex))`: every page is reachable and the last is never passed |
| `Carousel.FewCardsStayPut` | script.js:387-399 | with `maxIndex <= 0` (three or fewer cards) no run of clicks moves the index off 0 |
| `Carousel.SwipeAction` | script.js:424-433 | no action iff the distance's absolute value is at most 50; prev iff the touch moved right by more than 50; next iff it moved left by more than 50 |
| `Carousel.ProjectCarousel.constructor` | script.js:383-409 | `cardWidth` is the first card's width plus 32; `maxIndex` is the card count minus 3; the index is 0; the transform is unset; prev starts disabled; next starts disabled iff there are at most 3 cards |
| `Carousel.ProjectCarousel.UpdateButtons` | script.js:389-392 | prev disabled iff the index is 0; next disabled iff the index is at least `maxIndex` |
| `Carousel.ProjectCarousel.ScrollProjects` | script.js:394-403 | the new index is `Step` of the old one; the transform becomes `-(index * cardWidth)` even when the index did not move; the buttons agree with the index; the index invariant is kept |
| `Carousel.ProjectCarousel.TouchStart` | script.js:415-417 | records the start coordinate |
| `Carousel.ProjectCarousel.TouchEnd` | script.js:419-422 | records the end coordinate; then index and transform change as `SwipeAction` says, and not at all for a short swipe |
| `Carousel.ProjectCarousel.HandleSwipe` | script.js:424-433 | a swipe of at most 50px changes neither index nor transform; a longer one is a prev or next click |
| `Carousel.ProjectCarousel.Resize` | script.js:436-441 | never changes the index or `cardWidth`; redraws the transform at the current index with the new width only when that width differs from the load-time one, else leaves it |
| `NavScroll.Tick` | script.js:6-25 | one run of the scroll listener: `lastScroll` becomes the offset, "scrolled" iff the offset exceeds 50, and the transform changes (to hidden or shown) only when the offset exceeds the bar's height (`> navHeight`); at or under it the transform is untouched |
| `NavScroll.Replay` | script.js:6-25 | the listener run on each offset in turn; the transform stays the initial one, hidden or shown, and is untouched by a run whose offsets never exceed the bar's height |
| `NavScroll.LastPastBar` | script.js:17-23 | finds the last tick whose offset exceeds the bar's height (`> navHeight`), or none |
| `NavScroll.ReplayOutcome` | script.js:6-25 | after any non-empty run of ticks, `lastScroll` is the final offset; "scrolled" holds iff that offset exceeds 50; the transform was set by the last tick whose offset exceeds the bar's height, hidden iff that tick moved down, and is untouched if there was no such tick |
| `NavScroll.NavBar.constructor` | script.js:2-4 | the bar's height is fixed at load and `lastScroll` starts at 0 |
| `NavScroll.NavBar.OnScroll` | script.js:6-25 | "scrolled" iff the offset exceeds 50; when the offset exceeds the bar's height (`> navHeight`) the bar is hidden when moving down and shown otherwise; at or under it the transform is untouched; `lastScroll` is always overwritten |
| `ActiveLink.LastMatch` | script.js:97-102 | gives the last section, in document order, whose band `[offsetTop-100, offsetTop-100+clientHeight)` holds the scroll position, or none iff no band holds it |
| `ActiveLink.MarkLinks` | script.js:104-109 | each link is active afterwards iff its `href` equals the anchor |
| `ActiveLink.HighlightNavLinks` | script.js:93-112 | with a matching section, the active links are exactly those whose `href` is `#` plus the last matching section's id; with none, every flag is unchanged |
| `Reveal.Check` | script.js:143-150 | after one check an element is in view iff it already was or its rectangle now has top < innerHeight - 100 and bottom > 0 |
| `Reveal.Session` | script.js:158-160 | the initial check followed by one check per scroll event; every element in view before is still in view after |
| `Reveal.SessionReveals` | script.js:140-160 | over any run of scroll checks an element ends in view iff it was in view before or was visible in some frame, so a revealed element is never hidden again |
| `Reveal.AnimateOnScroll` | script.js:140-151 | the in-place loop leaves exactly the flags `Check` describes and only ever sets flags |
| `EmailValidation.IsSpace` | script.js:196 | JavaScript's `\s` (the ECMAScript WhiteSpace and LineTerminator code points); space, tab, newline and carriage return are among them, and none of them is '@' or '.' |
| `EmailValidation.IsValidEmail` | script.js:195-198 | the anchored pattern matches: the string splits into a word, '@', a word, '.', a word, each word one or more characters outside `\s` and '@'; a match has at least five characters and starts and ends with such a character |
| `EmailValidation.IsValidEmailIff` | script.js:195-198 | the pattern matches iff the string has no whitespace and exactly one '@', a non-empty part before it, and a '.' that is neither first nor last in the part after it |
| `EmailValidation.Examples` | script.js:195-198 | "a@b.c" is accepted; "a@b", "abc" and "a@@b.c" are refused |
| `ContactForm.Submit` | script.js:165-191 | any empty field gives the "fill in all fields" error; otherwise a malformed address gives the address error; success iff all fields are non-empty and the address is well formed; errors leave the fields unchanged and success clears all three |
| `ContactForm.EmptyFieldIgnoresEmail` | script.js:174-177 | with the name or the message empty, the outcome is the same for every address |
| `ContactForm.WhitespaceIsNotEmpty` | script.js:169-177 | a field holding only a space passes the empty-field test |
| `ContactForm.ResubmitAfterSuccess` | script.js:188-191 | submitting the cleared form after a success is refused as incomplete |
| `Toggles.ClickReadMore` | script.js:355-363 | a click flips whether the full text is hidden and leaves a consistently drawn view |
| `Toggles.ClickTwice` | script.js:355-363 | two clicks restore the hidden state, and restore exactly any view the button drew |
| `Toggles.SocialLinkTarget` | script.js:81-88 | `mailto:` and `tel:` links keep their target; every other link gets `_blank` |
| `Toggles.SocialLinkIdempotent` | script.js:86-88 | applying the rule twice is the same as applying it once |

## Left out

- Event registration, DOM queries, `scrollIntoView` smooth scrolling and the injected CSS text: browser plumbing with no logic of its own.
- `showNotification`'s timers, the `typeWriter` character timer and the load-plus-500ms trigger: scheduling, not logic. A notification is modelled by its text and kind only.
- The particle initialiser and the hero parallax: `Math.random()` and a floating-point `scrolled * 0.5` offset.
- Hover animations, the float class on the profile image and the hamburger menu's class toggles: single class flips.
- The `console.log` of the submitted form.
- Fractional scroll offsets, rectangle edges, widths and touch coordinates: all are integers here.
- The carousel's and the nav bar's transform strings: each is kept as the number in `translateX(-Npx)` or `translateY(...)`. So the carousel's `-0px` at index 0 is not distinguished from `0`, and for a bar of height 0 the hidden `translateY(-0px)` and the shown `translateY(0)` are the same value.
- `ContactForm.Submit`: `contactForm.reset()` restores the inputs' default values; the model assumes the inputs carry none, so reset clears them to "".
- `NavScroll.NavBar.constructor`: the initial class list and transform of the bar come from the markup; the model assumes neither "scrolled" nor a transform is present.
- A page with no project card: reading the first card's width throws at load, so `Carousel.ProjectCarousel.constructor` requires at least one card.
- Link `href` and section `id` come from `getAttribute`, so they are optional strings; a missing id is written `#null`, as the template literal prints it.
