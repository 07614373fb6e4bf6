# Richmond Car Detail site script: a verified model of its logic

The site's script (`main.js`) mostly wires the page's markup to animations
and to a form-relay service. This project models the parts of it that carry
logic of their own, once the document is reduced to the class markers the
code toggles. Each part is proved against a specification.

- **Slideshow** (`GalleryManager`). The state is the current slide, the
  transition flag, the autoplay flag, the autoplay interval, which view is
  shown, and the `active`/`prev` markers of each slide. `GallerySpec` states
  each method as a pure transition on that state. It proves an invariant:
  the index is in range, at most one slide is active, and `prev` appears
  only on the slide being left. It also proves that navigation during a
  transition is ignored, that a transition completes its two-phase handoff,
  and that autoplay visits every slide. `Gallery.GalleryManager` is the
  class with its fields updated in place. Each of its methods is proved to
  perform exactly the `GallerySpec` transition of the same name. The two
  `setTimeout` callbacks of a transition are the explicit steps
  `EnterPhase` and `CleanupPhase`.
- **Index cycling** (`Cycling`). This is JavaScript's `%` (`JsRem`) and the
  step `(i + d + n) % n` that the slideshow and the package carousel share.
  The module proves that the step stays in range, wraps at both ends and is
  undone by the opposite step. It also proves that k forward steps equal
  `(i + k) mod n`.
- **Package carousel** (`Packages.PackageCarousel`). This is the
  module-level index with `changePackage`, `goToPackage` and the marker
  loops of `updatePackageCarousel`. Those loops are proved to mark the items
  by plain distance from the index, with no wrap-around, and the dots by
  equality with it.
- **Price calculator** (`PriceCalculator`). This is the 7×3 price table in
  integer cents, the guarded lookup and the `$` + `toFixed(2)` rendering.
  The rendering is proved to be inverted by `ParsePrice`, and the
  displayed text is proved for every table entry.
- **Form relay** (`FormRelay`). This is the decision that the submit handler
  makes on the relay's reply: the banner text and kind, whether the form is
  reset, and the end of the busy state.
- **Navigation** (`Navigation`). This is the active-section highlighting of
  the nav links (a nested loop over an array of link markers) and the
  navbar's `scrolled` rule.

All line references are to `main.js`.

Preconditions the model states, and why:
- A slideshow has at least one slide. With none, `changeSlide` would compute
  `NaN` and index an empty list.
- Directions are -1 or +1. Every caller passes one of these, and for them
  JavaScript's truncating `%` and Dafny's Euclidean `%` agree because the
  dividend is never negative. `JsRem` models the JavaScript operator
  explicitly.
- `goToPackage(index)` has `index` below the number of items. It is bound
  only to the click of dot number `index`, and dots are created one per
  item (main.js:241-246).
- The timer steps (`AutoPlayTick`, `EnterPhase`, `CleanupPhase`) run only
  while the matching timer is pending. In `GallerySpec.Step`, an event
  whose timer is not pending changes nothing.

Behaviour of main.js worth knowing:
- Showing the slideshow view arms the interval without turning autoplay
  back on (main.js:161).
- Only `mouseenter` and `mouseleave` pause and resume autoplay
  (main.js:48-49). Losing focus does not.
- The slideshow has no operation that jumps straight to a given slide. It
  moves only one step at a time, through `changeSlide`.
- A reply that is neither `ok` nor carries errors gets the generic
  "Oops!…" banner (main.js:845-852).

## Model

| member | source | states |
|---|---|---|
| Cycling.JsRem | main.js:61 | JavaScript `%`: the result has the sign of the dividend, its magnitude is below the divisor, it differs from the dividend by a multiple of the divisor, and it equals the Euclidean remainder for non-negative dividends |
| Cycling.Cycle | main.js:61 | `(index + direction + n) % n` for direction ±1 stays in [0, n); forward from n-1 wraps to 0 and back from 0 wraps to n-1, otherwise it moves by one |
| Cycling.CycleInverse | main.js:61 | a step back undoes a step forward and vice versa |
| Cycling.Advance | main.js:85-89 | repeated forward steps stay in [0, n) |
| Cycling.AdvanceIsModular | main.js:85-89 | k forward steps from i land on (i + k) mod n |
| Cycling.FullTurnReturns | main.js:85-89 | n forward steps return to the starting index |
| Cycling.EveryIndexReached | main.js:85-89 | every index is reached from any other in fewer than n forward steps |
| GallerySpec.Initial | main.js:4-21 | a freshly built slideshow satisfies the invariant, starts at slide 0 with autoplay on and the interval armed, keeps the given view flags, and starts both touch positions at 0 |
| GallerySpec.StartAutoPlay | main.js:82-90 | the interval is armed under a fresh handle; nothing else changes |
| GallerySpec.RestartAutoPlay | main.js:92-96 | re-arms with a fresh handle exactly when autoplay is on, otherwise changes nothing |
| GallerySpec.PauseAutoPlay | main.js:98-100 | autoplay turns off; the interval stays armed with the same handle |
| GallerySpec.ResumeAutoPlay | main.js:102-105 | autoplay turns on and the interval is re-armed with a fresh handle; every other field, the slides, index, phase, views and touch positions included, is unchanged |
| GallerySpec.ChangeSlide | main.js:56-80 | during a transition nothing changes; otherwise the index takes one cycle step, the left slide loses `active` and has `prev` iff direction > 0, the other slides are untouched, the enter step is pending, the interval is re-armed iff autoplay is on; the autoplay flag, views and touch positions are unchanged; the invariant is kept |
| GallerySpec.Depart | main.js:59-67 | the state between leaving a slide and re-arming autoplay still satisfies the slideshow invariant, with the enter step pending for the slide left |
| GallerySpec.EnterPhase | main.js:69-70 | the current slide gains `active` and keeps its other marker (so on a one-slide show its `prev` survives until cleanup), the cleanup step becomes pending; every other slide and every other field are unchanged |
| GallerySpec.CleanupPhase | main.js:73-76 | no slide keeps `prev`, the transition is over, and by the invariant only the current slide is active |
| GallerySpec.AutoPlayTick | main.js:85-89 | a tick changes nothing while autoplay is off; while it is on, the tick is exactly `changeSlide(1)`: a forward step that re-arms the interval outside a transition and does nothing during one |
| GallerySpec.SwipeDirection | main.js:118-130 | travel of at most 50 px gives no step, more than 50 px leftward a forward step, more than 50 px rightward a backward step |
| GallerySpec.HandleTouchStart | main.js:108-110 | records the touch's start position only |
| GallerySpec.HandleTouchEnd | main.js:118-130 | records the end position; a short swipe changes nothing else, a long one is `changeSlide` in the swipe's direction |
| GallerySpec.KeyDirection | main.js:135-144 | ArrowLeft maps to -1, ArrowRight to +1, every other key to nothing |
| GallerySpec.HandleKeyPress | main.js:133-146 | arrow keys act as `changeSlide` only while the slideshow view is shown; otherwise nothing changes |
| GallerySpec.ShowSlideshow | main.js:149-163 | with both views present: slideshow shown, grid hidden, interval re-armed with a fresh handle; every other field, the autoplay flag, slides, phase and touch positions included, is unchanged |
| GallerySpec.ShowGrid | main.js:165-180 | with both views present: grid shown, slideshow hidden, interval disarmed (stale handle kept); every other field, a pending transition included, is unchanged |
| GallerySpec.Step | main.js:23-54 | every event the page delivers keeps the slideshow invariant and the number of slides |
| GallerySpec.Run | main.js:23-54 | after any sequence of events the invariant holds and the index is in [0, N) |
| GallerySpec.NavigationBlockedWhileTransitioning | main.js:56-57 | during a transition, buttons, swipes, arrow keys and ticks leave index, markers, phase, autoplay and interval unchanged |
| GallerySpec.HandoffCompletes | main.js:59-77 | change, enter and cleanup together end idle on the next slide of the cycle, with only it active and no `prev` anywhere |
| GallerySpec.SwipeMovesOneStep | main.js:123-129 | outside a transition a long swipe moves exactly one step in its direction and a short one moves nothing |
| GallerySpec.AutoplayAdvances | main.js:85-89 | k undisturbed autoplay rounds advance the index by k steps and leave autoplay on and armed |
| GallerySpec.AutoplayShowsEverySlide | main.js:85-89 | undisturbed autoplay reaches every slide in fewer than N rounds and returns to the start after N |
| Gallery.GalleryManager.constructor | main.js:4-21 | the new object is valid and equals GallerySpec.Initial |
| Gallery.GalleryManager.StartAutoPlay | main.js:82-90 | performs GallerySpec.StartAutoPlay on the object |
| Gallery.GalleryManager.RestartAutoPlay | main.js:92-96 | performs GallerySpec.RestartAutoPlay on the object |
| Gallery.GalleryManager.PauseAutoPlay | main.js:98-100 | performs GallerySpec.PauseAutoPlay on the object |
| Gallery.GalleryManager.ResumeAutoPlay | main.js:102-105 | performs GallerySpec.ResumeAutoPlay on the object |
| Gallery.GalleryManager.ChangeSlide | main.js:56-80 | performs GallerySpec.ChangeSlide on the object and its slide array |
| Gallery.GalleryManager.EnterPhase | main.js:69-70 | performs GallerySpec.EnterPhase on the object and its slide array |
| Gallery.GalleryManager.CleanupPhase | main.js:73-76 | performs GallerySpec.CleanupPhase on the object and its slide array |
| Gallery.GalleryManager.AutoPlayTick | main.js:85-89 | performs GallerySpec.AutoPlayTick on the object |
| Gallery.GalleryManager.HandleTouchStart | main.js:108-110 | performs GallerySpec.HandleTouchStart on the object |
| Gallery.GalleryManager.HandleTouchEnd | main.js:118-130 | performs GallerySpec.HandleTouchEnd on the object |
| Gallery.GalleryManager.HandleKeyPress | main.js:133-146 | performs GallerySpec.HandleKeyPress on the object |
| Gallery.GalleryManager.ShowSlideshow | main.js:149-163 | performs GallerySpec.ShowSlideshow on the object |
| Gallery.GalleryManager.ShowGrid | main.js:165-180 | performs GallerySpec.ShowGrid on the object |
| Packages.ItemStates | main.js:294-301 | after a refresh, item i has exactly the markers of its plain distance from the current index: `center` iff i is the index, `active` iff within one |
| Packages.IndicatorStates | main.js:304-306 | dot i is active iff i is the current index |
| Packages.CenteredItemIsUnique | main.js:296-297 | only the current item is centred, and it is also active |
| Packages.NoWrapAround | main.js:298-299 | with three or more items the first and last items do not mark each other active |
| Packages.PackageCarousel.constructor | main.js:229-263 | the index starts at 0 and the object keeps the given `hasTrack`; one dot per item, the first active, exactly when the page is wide, the dots' container exists and there are items (otherwise no dots); the items are marked for index 0 when the page is wide, a track exists and there are items, and otherwise keep their markup |
| Packages.PackageCarousel.ChangePackage | main.js:265-270 | the index takes one cycle step and stays in range, then the refresh effect |
| Packages.PackageCarousel.GoToPackage | main.js:272-275 | the index becomes the given one, then the refresh effect |
| Packages.PackageCarousel.UpdatePackageCarousel | main.js:277-307 | on a wide page with a track and items, every item equals ItemStates and every dot IndicatorStates; otherwise nothing changes |
| PriceCalculator.TablePricesArePositive | main.js:552-560 | every table price is positive and no table key is empty |
| PriceCalculator.Lookup | main.js:562-567 | a price is found exactly for the 21 table pairs, and it is that pair's positive table price |
| PriceCalculator.Decimal | main.js:568 | a non-empty run of decimal digits without a leading zero |
| PriceCalculator.DecimalRoundTrip | main.js:568 | the numeral reads back as the number |
| PriceCalculator.FormatPrice | main.js:568 | `$`, the dollars without a leading zero, a point and exactly two cent digits |
| PriceCalculator.FormatPriceRoundTrip | main.js:568 | the rendered price reads back as the same cents |
| PriceCalculator.UpdatePrice | main.js:562-580 | for a table pair, the text renders that pair's price in the price colour; for any other pair, the prompt in the muted colour |
| PriceCalculator.ShowsExteriorWashCar | main.js:553 | exterior_wash for a car shows $49.99 |
| PriceCalculator.ShowsExteriorWashSuv | main.js:553 | exterior_wash for a suv shows $59.99 |
| PriceCalculator.ShowsExteriorWashVan | main.js:553 | exterior_wash for a van shows $69.99 |
| PriceCalculator.ShowsBronzePackageCar | main.js:554 | bronze_package for a car shows $149.99 |
| PriceCalculator.ShowsBronzePackageSuv | main.js:554 | bronze_package for a suv shows $169.99 |
| PriceCalculator.ShowsBronzePackageVan | main.js:554 | bronze_package for a van shows $199.99 |
| PriceCalculator.ShowsSilverPackageCar | main.js:555 | silver_package for a car shows $449.99 |
| PriceCalculator.ShowsSilverPackageSuv | main.js:555 | silver_package for a suv shows $499.99 |
| PriceCalculator.ShowsSilverPackageVan | main.js:555 | silver_package for a van shows $599.99 |
| PriceCalculator.ShowsGoldPackageCar | main.js:556 | gold_package for a car shows $599.99 |
| PriceCalculator.ShowsGoldPackageSuv | main.js:556 | gold_package for a suv shows $699.99 |
| PriceCalculator.ShowsGoldPackageVan | main.js:556 | gold_package for a van shows $799.99 |
| PriceCalculator.ShowsRichmondSpecialCar | main.js:557 | richmond_special for a car shows $1499.99 |
| PriceCalculator.ShowsRichmondSpecialSuv | main.js:557 | richmond_special for a suv shows $1599.99 |
| PriceCalculator.ShowsRichmondSpecialVan | main.js:557 | richmond_special for a van shows $1699.99 |
| PriceCalculator.ShowsCeramicCoatingCar | main.js:558 | ceramic_coating for a car shows $999.99 |
| PriceCalculator.ShowsCeramicCoatingSuv | main.js:558 | ceramic_coating for a suv shows $999.99 |
| PriceCalculator.ShowsCeramicCoatingVan | main.js:558 | ceramic_coating for a van shows $999.99 |
| PriceCalculator.ShowsGoldWaxCar | main.js:559 | gold_wax for a car shows $349.99 |
| PriceCalculator.ShowsGoldWaxSuv | main.js:559 | gold_wax for a suv shows $399.99 |
| PriceCalculator.ShowsGoldWaxVan | main.js:559 | gold_wax for a van shows $499.99 |
| PriceCalculator.DisplayedPriceIsTablePrice | main.js:562-573 | the text shown for a table pair reads back as exactly that pair's table price, and is never the prompt |
| PriceCalculator.EmptySelectionShowsPrompt | main.js:566-579 | an empty service or vehicle selection shows the prompt in the muted colour |
| PriceCalculator.UnknownVehicleShowsPrompt | main.js:566-579 | a vehicle the service has no price for (gold_package with motorcycle) shows the prompt |
| FormRelay.BeginSubmit | main.js:829-830 | submitting shows the spinner and disables the button |
| FormRelay.Messages | main.js:849 | one text per error entry, an absent message rendered as the empty string |
| FormRelay.Join | main.js:849 | joining a single message gives that message unchanged |
| FormRelay.JoinShowsEveryPart | main.js:849 | every message appears intact at its offset in the joined text |
| FormRelay.JoinSeparatesParts | main.js:849 | between consecutive messages the joined text holds exactly the separator, and the next message starts right after it |
| FormRelay.JoinLength | main.js:849 | the joined text ends with the last message, so it holds the messages and separators and nothing else |
| FormRelay.HandleReply | main.js:840-858 | the busy state clears in every branch; the form resets iff the reply is `ok`, which gives the success banner; otherwise a danger banner with the joined errors, the generic text, or the network-error text |
| FormRelay.BusyFromSubmitUntilReply | main.js:829-856 | busy after submitting, idle after any reply |
| FormRelay.ErrorRepliesShowEachMessage | main.js:848-849 | an error reply's banner contains each error message, intact and in order, at its offset in the joined text |
| FormRelay.SingleErrorShownVerbatim | main.js:848-849 | an error reply with one entry shows exactly that entry's message (empty when absent) as a danger banner |
| FormRelay.EmailRequiredExample | main.js:848-849 | the reply with error "Email required" shows exactly that as a danger banner |
| Navigation.LastMatch | main.js:527-532 | the last section whose [top, top+height) holds the position, or none when no section holds it |
| Navigation.LinkStates | main.js:533-538 | a link is active iff its href is "#" followed by the section id |
| Navigation.HighlightActiveSection | main.js:524-541 | the links end up as LinkStates of the last section holding scrollY+100, or keep their markers when none does |
| Navigation.NavbarScrolled | main.js:483-490 | the navbar is `scrolled` exactly when the page offset is past 50 px, or the page offset is 0 and the document offset is past 50 px |
| Navigation.NavbarScrolledMonotone | main.js:483-490 | for any two pairs of page and document offsets, a larger offset as read by the rule never removes `scrolled` |

## Left out

- GSAP animations, particle effects and hover transforms (main.js:346-475, 642-678, 889-901). They are calls into an animation library, random numbers and floating point.
- The hero parallax (main.js:492-496). It is a floating-point transform of the scroll offset.
- The track's pixel offset in `updatePackageCarousel` (main.js:286-291). It depends on the measured width of the container.
- Smooth scrolling, `scrollTo` and `scrollIntoView` (main.js:207-220, 311-314, 502-514, 869), the resize handler (main.js:331-342) and the mobile CSS variables (main.js:184-204). These are viewport plumbing; the `innerWidth <= 768` test is the parameter `narrow`.
- The transport itself: `fetch`, `FormData` and `response.json()` (main.js:832-839). Only the reply the chain delivers is modelled. A reply body of JSON `null` makes `data.ok` throw after the busy state is cleared, which reaches the `catch` branch; it therefore behaves as `TransportFailure`. An `errors` list with a `null` entry makes `err.message` throw inside the same branch (main.js:849), which also reaches the `catch` branch and shows the network-error banner; `ErrorEntry` cannot express such an entry, so that reply is modelled only as `TransportFailure`. A truthy `errors` value that is not an array is not modelled.
- The banner's HTML (main.js:862-868). Only its text and alert kind are modelled.
- Timer durations (4000, 50 and 600 ms). Timers are explicit events, so the model does not say when they fire.
- The price display's `scale(1.1)` pulse and the 200 ms timer that resets it to `scale(1)` (main.js:571-575). It is a visual effect; only the text and colour are modelled.
- The 3-second re-enable fallback of `initializeFormEnhancements` (main.js:623-637). It is a second timer on the same forms that races the reply path; the model follows the reply path only.
- Floating-label focus styling (main.js:600-618), the empty lightbox (main.js:587-595) and the commented-out booking code (main.js:680-815).
- `handleTouchMove` (main.js:112-116). It only prevents page scrolling. The `preventDefault` calls of the key handler are left out too.
- The `active` markers of the two view-toggle buttons (main.js:158-159, 174-175). They are optional and mirror the views' markers.
- The markup the scripts start from is not part of main.js. The slideshow is assumed to load with its first slide marked `active` and none marked `prev`, which the invariant needs. The package items' initial markers are a parameter.
- Object keys inherited from `Object.prototype`. For a vehicle such as `"toString"` or `"__proto__"`, `prices[service][vehicle]` is an inherited member, which is truthy but not a number, so `price.toFixed` throws a TypeError at main.js:568 and the display keeps its old text; for the service `"constructor"` with the vehicle `"length"` the value is the number 1, so "$1.00" is shown in the price colour. The model assumes the select elements offer only the table's keys and treats any other key as missing.
- Touch and scroll coordinates are exact reals. Section offsets are integers, as the DOM reports them.
