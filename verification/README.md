# Portfolio page behaviour, modelled in Dafny

This project models the event logic of the single-page portfolio (`App.tsx`).
The page has a scroll-driven active nav section and one-shot entrance
animations for the about, interests, projects, contact and footer blocks. It
has a nav underline fitted to measured link layouts, and nav presses that
scroll to a section. It also has a project list built from the owner's
repository listing with a fixed fallback, a single-slot copy notification, a
hover/press colour rule of the `Hoverable` wrapper, and a typewriter hero title.

Each concern is one module of pure functions over immutable records:

- `JsMath`: `Math.round` and `Math.max` on exact reals.
- `Sections`: classifying the scroll offset into a section, and the active-section write rule.
- `Entrance`: the five "already animated" flags. Animation starts are counted in a multiset.
- `NavLayout`: the underline target geometry and the two `onLayout` updaters of the nav layout map.
- `Scrolling`: the scroll target of a nav press, and the mobile breakpoint.
- `Projects`: the repository-listing transform and its fallback.
- `Notification`: the toast state machine, its callbacks, and the clipboard press.
- `Hoverable`: hover and press state, and colour precedence, for the controls built on the `Hoverable` wrapper: the nav links, the hero buttons, the project links and the contact and social buttons. The hamburger toggle and the mobile-menu items are plain pressables with no hover or press colour.
- `Typewriter`: the title ticks.
- `Page`: the scroll-and-layout part of the page state (active section, entrance flags, nav layout map, underline, measured section tops, mobile flag) with one transition per event. Underline re-targeting runs when the active section or the layout map changed. `Typewriter`, `Projects` and `Notification` share no state with it and are modelled on their own.

The viewport height `h` is a parameter. The source reads it once, when the module loads.
The fetched listing is an input `Option<seq<Repo>>`, where `None` means the request or
JSON parse failed or the body was not a list. The clipboard write's outcome is a
boolean input. Timers and animation completions are events delivered to the
notification machine.

The active section switches to contact at 3.5 viewport heights
(App.tsx:297-298), as `Sections.ClassifySaturates` states.

## Model

| member | source | states |
|---|---|---|
| JsMath.Round | App.tsx:237 | `Math.round` gives the integer within half of its argument, with halves rounding up |
| JsMath.Max | App.tsx:236 | `Math.max` gives the larger of its two arguments |
| JsMath.Min | App.tsx:189 | `slice(0, 6)` keeps the shorter of 6 and the list's length, and that is one of the two |
| Sections.Classify | App.tsx:293-298 | for a non-negative height, the offset lies in the band of the section it is classified as |
| Sections.ClassifyIsBand | App.tsx:293-298 | for a non-negative height, the classified section is exactly the one whose band [lower edge, upper edge) contains `y`, in both directions |
| Sections.ClassifyCountsEdges | App.tsx:293-298 | a section's page-order index equals how many of the edges 0.5h, 1.5h, 2.5h, 3.5h the offset has reached |
| Sections.ClassifyMonotone | App.tsx:293-298 | scrolling further down never gives a section earlier in page order |
| Sections.ClassifySaturates | App.tsx:298 | every offset at or past 3.5 viewport heights is contact |
| Sections.ActiveWrite | App.tsx:300-302 | the active section is written exactly when the new classification differs from the current one, and the write carries that classification |
| Sections.ActiveAfterScroll | App.tsx:293-302 | after a scroll event the active section is the classification of `(y, h)`, whatever it was before |
| Entrance.Trigger | App.tsx:308-315 | one block's check raises that block's flag iff it was raised or `y` exceeds its threshold, adds one start iff the flag turned, and leaves every other block alone |
| Entrance.Sweep | App.tsx:307-353 | running the checks of a list of blocks in turn treats each block on its own: its flag and start end as one check would leave them if it is listed, unchanged otherwise |
| Entrance.OnScroll | App.tsx:305-353 | after a scroll event each flag is raised iff it was raised before or `y` exceeds `k·h − 0.3·h`, and a start is added iff the flag turned |
| Entrance.OnScrollMonotone | App.tsx:308-353 | a raised flag stays raised, and a scroll event keeps "started once iff flagged" |
| Entrance.RunSpec | App.tsx:305-353 | from mount, over any sequence of scroll offsets, a flag is raised iff some offset passed its threshold, and its animation started once iff so |
| Entrance.StartsAtMostOnce | App.tsx:308-353 | no entrance animation starts more than once in the page's lifetime |
| Entrance.ThresholdsRise | App.tsx:305-350 | with a non-negative height, thresholds rise in page order (0.95, 1.95, 2.95, 3.95, 4.5 less 0.3) |
| Entrance.FlagsDownwardClosed | App.tsx:305-353 | a block further down has animated only if every block above it has |
| Entrance.OneEventStartsAll | App.tsx:305-353 | the checks are independent, so one offset past the footer threshold starts all five animations in one event |
| NavLayout.Target | App.tsx:234-250 | the bar is the chosen box less 10 and never negative. The text box is used when both text fields exist, the container box otherwise. A box at least 10 wide loses exactly 5 on each side. A narrower box gives a zero-width bar at its left edge plus the rounded half width. The two margins always differ by at most 1 |
| NavLayout.TargetExamples | App.tsx:234-250 | container {100, 80} gives {105, 70}. Text {100, 80, 10, 40} gives {115, 30}. A text `x` without a text width falls back to the container box |
| NavLayout.UnderlineEffect | App.tsx:231-252 | an unmeasured active link leaves the bar where it is. A measured one gets that link's target: a bar 10 narrower than its box, never negative, inset exactly 5 on each side of a box at least 10 wide, with margins differing by at most 1 |
| NavLayout.ContainerLaidOut | App.tsx:416-422 | the map is returned unchanged iff the link's `x` and width are equal. Otherwise the entry becomes the bare container box with no text fields. Only that link's entry changes |
| NavLayout.TextLaidOut | App.tsx:429-436 | the map is returned unchanged iff both text fields are equal. Otherwise the entry takes the new text fields and keeps its `x` and width (0 and the text width when it had no entry). Only that link's entry changes |
| NavLayout.ContainerIdempotent | App.tsx:416-422 | reporting the same container layout twice changes nothing the second time |
| NavLayout.TextIdempotent | App.tsx:429-436 | reporting the same text layout twice changes nothing the second time |
| NavLayout.TextLayoutUsesTextBox | App.tsx:233-237 | after a text layout, the underline is fitted to the text box, offset by the container `x` |
| NavLayout.MovedContainerFallsBack | App.tsx:420-421 | a container layout that moves or resizes a link drops its text measurement, so the underline falls back to the container box |
| Scrolling.BreakpointEdge | App.tsx:72 | width 767 is mobile and 768 is not |
| Scrolling.ScrollTarget | App.tsx:212-228 | the target is never negative. It equals the measured-or-fallback offset, plus the contact nudge on mobile, whenever that is non-negative, and is 0 otherwise |
| Scrolling.NudgeOnlyForMobileContact | App.tsx:223-226 | except for contact on mobile, the target is the base offset clamped at 0 |
| Scrolling.MeasuredTopWins | App.tsx:221 | a measured, non-negative section top is the target exactly and ignores the fallback table |
| Scrolling.MobileContactIsLower | App.tsx:223-226 | for viewports at least 3 high, the mobile contact target (nudged by `round(1.5h) − 64 + 60`) is at or below the desktop one |
| Projects.Lower | App.tsx:187 | lower-casing keeps the length and maps each character on its own |
| Projects.WithoutProfile | App.tsx:187 | the filtered list is no longer than the listing, and holds only named, non-profile repositories taken from it |
| Projects.Kept | App.tsx:187 | the kept listing positions are strictly increasing, all non-profile, and include every non-profile position |
| Projects.WithoutProfileIsKept | App.tsx:187 | the filtered listing is exactly the repositories at the kept positions, in listing order |
| Projects.DescriptionOf | App.tsx:191 | the description is the source's when it is a non-empty string, and `'No description available.'` otherwise. It is never empty |
| Projects.ToProject | App.tsx:189-194 | a card keeps the repository's name and URL, and its image is `https://opengraph.githubassets.com/1/<owner>/<name>` |
| Projects.ToProjects | App.tsx:189-194 | the cards are one per repository, in order, each that repository's card |
| Projects.Transform | App.tsx:187-196 | the transform succeeds iff every repository has a name and the first six non-profile ones all have an owner. On success it gives at most 6 cards, none with an empty description or the profile's name |
| Projects.Load | App.tsx:183-205 | at most 6 projects, every description non-empty, no name lower-casing to `dinonuwg`. A failed request gives exactly the fallback list |
| Projects.LoadFollowsListing | App.tsx:187-196 | on success the page shows min(6, kept) projects, the j-th being the card of the j-th non-profile repository |
| Projects.LoadFallsBack | App.tsx:183-205 | a failed request, a repository without a name (filter throws) or a shown repository without an owner (map throws) gives exactly the 3-entry fallback |
| Projects.ProfileMatchIgnoresCase | App.tsx:187 | `DinoNUWG` is filtered out as the profile repository, and `dinonuwg.github.io` is not |
| Notification.ShowMessage | App.tsx:356-389 | after `show(m)` the message is `m`, only the new slide-in is pending (old timer and animation cancelled), and the slide starts off-screen at 300 |
| Notification.Step | App.tsx:356-389 | a show always displays its message with only the slide-in pending. A callback changes the toast iff it is pending, and then keeps the message or clears it. The slide-in's end starts the dwell, the dwell's end starts the slide-out, and the slide-out's end hides the toast |
| Notification.OnlyPendingCallbacksAct | App.tsx:358-363 | a cancelled callback has no effect, and a pending one advances the toast |
| Notification.OwnedRun | App.tsx:380-388 | without another show, a toast showing `m` or nothing keeps doing so, and dismisses at most once, only `m` |
| Notification.LatestMessageWins | App.tsx:356-389 | after `show(m)` and any later callbacks, only `m` is ever displayed or dismissed, at most once |
| Notification.EarlierMessageNeverDismissed | App.tsx:356-389 | after `show(a)` then `show(b)` with `a ≠ b`, `a` never reaches its own auto-dismiss |
| Notification.FullCycle | App.tsx:374-388 | an undisturbed message passes through sliding in, visible for the dwell, and sliding out, in that order. It ends hidden and is dismissed exactly once |
| Notification.CopyPressed | App.tsx:392-402 | a successful clipboard write shows the message for what was copied. A failed write leaves the toast exactly as it was |
| Hoverable.Handle | App.tsx:19-34 | hover events set only the hovered state, to true on enter and false on leave. Press events set only the pressed state the same way |
| Hoverable.Pick | App.tsx:39-42 | the press colour shows while pressed if given. Otherwise the hover colour shows while hovered if given. Otherwise the control's own colour shows |
| Hoverable.HoverWins | App.tsx:39-42 | with no press colour, a hovered control with a hover colour shows it, held or not |
| Hoverable.PressWins | App.tsx:39-42 | while pressed with a press colour, the press colour shows whether hovered or not |
| Hoverable.InactiveOverridesIgnored | App.tsx:39-42 | the press colour does not matter unless pressed, and the hover colour does not matter unless hovered |
| Hoverable.EmptyOverrideFallsThrough | App.tsx:39-42 | a missing or empty override behaves as if the control were not in that state |
| Hoverable.LeaveAndReleaseRestoreBase | App.tsx:19-42 | hover-out and press-out, in either order, return the control to the untouched state and restore its own colour |
| Typewriter.Tick | App.tsx:146-159 | a tick keeps the text equal to the title's first `i` characters. While incomplete it appends the next title character and schedules another tick. Once complete it stops the ticks and starts the cursor loop once. Without a pending tick nothing changes |
| Typewriter.TicksSpec | App.tsx:144-159 | after `k` ticks the text is the first min(k, 8) characters of `dinonuwg`. Ticks keep coming while it is incomplete. The cursor loop has started once iff `k > 8` |
| Typewriter.TypedGrowsAlongTitle | App.tsx:146-151 | the displayed text is always a prefix of the title, and each tick extends it by at most one character |
| Page.Handle | App.tsx:289-302 | a scroll sets the active section to its offset's classification and runs the entrance checks, leaving layout, section tops and the mobile flag alone. A link layout changes only the nav map, a section layout only that section's top, a resize only the mobile flag (`w < 768`). No handler moves the underline |
| Page.SectionLayoutRecordsTop | App.tsx:477 | a section's layout report records its top and changes nothing else on the page, as the five section `onLayout` writers do (App.tsx:477, 541, 578, 604, 634) |
| Page.ResizeSetsMobile | App.tsx:78-80 | a resize sets the mobile flag to `w < 768` and changes nothing else on the page |
| Page.Step | App.tsx:231-302 | an event changes the page as its handler does, plus the underline. The underline moves only if the active section or layout map changed, and then to the measured active link's target |
| Page.StepKeepsGood | App.tsx:231-302 | every page event keeps the underline at the measured active link's target and keeps the animation starts in step with the flags |
| Page.RunGood | App.tsx:231-436 | from mount, along any event sequence, the same two invariants hold |
| Page.UnmeasuredKeepsUnderline | App.tsx:231-252 | while the active link has no measured layout, no event moves the underline from its last position |
| Page.ScrollSetsActive | App.tsx:289-302 | after a scroll event the active section is the classification of its offset, and the layout map and section offsets are untouched |
| Page.FallbackTargetActivates | App.tsx:214-227 | on desktop, pressing a link whose section is unmeasured scrolls into that section's band, which makes it active and runs its entrance animation |

## Left out

- Rendering and styling: the JSX tree and the `StyleSheet` tables (App.tsx:690-1188) are presentation.
- Animation timing: durations, easing, interpolation, staggered card delays, the hero float, the hover lift and the cursor blink loop are time-based interpolation. Only the start of each entrance animation and of the cursor loop is counted.
- Hero mount animations (App.tsx:163-176): fixed sequences with no state logic.
- The `fetch`/`response.json()` call and the error log (App.tsx:183-184, 198) are network I/O. Only their outcome is an input.
- The clipboard write and `Linking.openURL` (App.tsx:394, 624, 664) are platform calls. Only "write failed ⇒ no notification" is modelled.
- The DOM text measurement (App.tsx:255-286) and the resize listener registration (App.tsx:77-89) are platform I/O. The DOM updater's merge mirrors `NavLayout.TextLaidOut`. A resize is the event `Page.Resized(w)`.
- The mobile menu open/close animation (App.tsx:91-97) is purely visual.
- `scripts/publish-dist.js` and `scripts/git-push.js` only wrap git and shell commands.
- Floating point: all geometry is on exact reals, so rounding error and NaN are not modelled. `Math.round` is `floor(v + 0.5)`.
- Lower-casing is ASCII-only. For equality with `dinonuwg` this agrees with full Unicode lower-casing: no non-ASCII character lower-cases to a single one of those letters. This is not proved.
- Event interleaving: each scroll event is assumed to see the state left by the previous one, as after a render. Two scroll events handled before React re-renders would both read the stale `sectionsAnimated` and could each start the same animation. The model does not cover that.
- Notification cancellation is modelled as one atomic step. Stopping the running slide-in runs its completion callback, which schedules a dwell timer, but the next line clears that timer (App.tsx:358-363). `setValue(300)` stops a running slide-out, and its callback clears the message before the new one is set (App.tsx:366-372).
- Section and link keys are the five `Section` values. The source's string-keyed maps are never given any other key.
- Typewriter: the 150 ms tick interval is not modelled; ticks are events.
