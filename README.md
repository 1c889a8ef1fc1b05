# Slide navigation of the NFC presentation, in Dafny

This project models the navigation core of the single-page NFC slide presentation (`js/script.js`).
The page keeps one global cursor, `currentSlide`, over the slide elements, and one indicator dot per slide.
The body carries an `on-cover` class while the cover slide is shown.

Two commands move the cursor:

- `changeSlide(dir)` moves relative to the cursor.
- `changeSlideTo(index)` jumps directly. The dots use it when clicked.

The arrow keys are mapped onto `changeSlide(1)` and `changeSlide(-1)`.
Each command is bounds-checked and never wraps around.
Every accepted move redraws the page with `updateDisplay`. The redraw does four things:

- It restyles every slide: active or not, opacity, and a "behind" or "ahead" pose.
- It restyles every dot.
- It sets or clears `on-cover`.
- On slide 3, it schedules a resize of the field canvas.

The same file holds the APDU inspector: a fixed five-entry glossary, a hover handler that writes one entry into an info box, and a leave handler that restores the box's default message.

Modules:

- `Display`: what the redraw writes, as pure functions of the cursor. CSS values are kept as the literal strings the page writes and are treated as opaque tags. The lemmas state exactly one active slide, the poses, exactly one highlighted dot, and that the cursor can be read back from the slides.
- `Navigation`: cursor moves as pure functions (`Advance`, `JumpTo`, `OnKey`), and whole sessions of key presses and dot clicks (`Run`). The lemmas state range preservation, no wrap-around, and the key mapping.
- `Slideshow`: the class `Presentation`. It holds the cursor, the slide array, the dot array, the `on-cover` flag and a count of scheduled canvas resizes. Its methods update them in place and are proved against `Display` and `Navigation`.
- `Apdu`: the glossary table, the info-box values, and the class `ApduPanel`, whose `SetInfo` and `ClearInfo` overwrite the box. The glossary is a plain object, so a lookup also finds the names it inherits from `Object.prototype`. For those names the hover handler completes and writes "undefined" into the box.
- `Wrappers`: an `Option` type.

The redraw in this file has no per-slide simulation start/stop hooks. Its only slide-specific action is the deferred canvas resize on slide 3, so that is all the model covers for that step.
The inactive slides' pose depends only on whether a slide lies before or after the cursor. It does not depend on the direction of the last move. The model follows the code here.
The handlers that change the page (`UpdateDisplay`, `ChangeSlide`, `ChangeSlideTo`, `KeyDown`, `SetInfo`, `ClearInfo`) are methods that update the state in place. Their contracts relate the new state to the old one.

## Model

| member | source | states |
|---|---|---|
| `Slideshow.Presentation.constructor` | js/script.js:2-15 | The cursor starts at 0. One dot is created per slide; the first gets the highlighted class and every other one the plain class. The slides are left as the markup gave them. |
| `Slideshow.Presentation.UpdateDisplay` | js/script.js:17-49 | Afterwards every slide, every dot and the `on-cover` flag equal the rendering of the cursor. A resize is scheduled exactly when the cursor is 3. |
| `Slideshow.Presentation.ChangeSlide` | js/script.js:51-57 | The cursor becomes `old + dir` exactly when that names a slide, and the page is then redrawn. Otherwise the cursor, slides, dots, flag and resize count are all unchanged. The cursor stays in range. |
| `Slideshow.Presentation.ChangeSlideTo` | js/script.js:59-64 | The cursor becomes `index` exactly when `0 <= index < slides.length`, followed by a redraw. Otherwise nothing changes. The cursor stays in range. |
| `Slideshow.Presentation.ClickDot` | js/script.js:11 | Clicking dot `i` always shows slide `i` and redraws. |
| `Slideshow.Presentation.KeyDown` | js/script.js:67-70 | The new cursor is `OnKey` of the old one. A changed cursor comes with a redraw, which schedules one resize exactly when the new cursor is 3. An unchanged cursor, and any key other than the two arrows, leaves all state untouched. |
| `Slideshow.Presentation.Load` | js/script.js:163-164 | The first redraw brings slides, dots and `on-cover` in line with the cursor. |
| `Slideshow.DisplayedShowsOneSlide` | js/script.js:17-42 | On a redrawn page with at least one slide, the active set is exactly {cursor}. The highlighted-dot set is also exactly {cursor}. The first active slide is the cursor. |
| `Display.SlideAt` | js/script.js:26-34 | A slide is active exactly at the cursor. It has opacity "1" exactly when active and "0" otherwise. Its pose is neutral exactly at the cursor, "behind" exactly before it and "ahead" exactly after it. |
| `Display.DotAt` | js/script.js:39-41 | A redrawn dot is highlighted exactly when its index is the cursor. |
| `Display.InitialDot` | js/script.js:9 | A freshly built dot starts with the shared base classes and is highlighted exactly when it is dot 0. |
| `Display.ExactlyOneActive` | js/script.js:25-35 | After a redraw at an in-range cursor, the set of active slides is exactly {cursor}, so it has one element. |
| `Display.RenderedPoses` | js/script.js:25-35 | A rendered slide has opacity "1" exactly when it is active and "0" otherwise. It has the neutral pose exactly at the cursor, the "behind" pose exactly before it and the "ahead" pose exactly after it. |
| `Display.FirstActive` | js/script.js:25-35 | Reading the page back: the result is an active slide with no active slide before it, or nothing if no slide is active. |
| `Display.RenderRecoversCursor` | js/script.js:25-35 | Reading the active slide back from a rendering gives the cursor when it is in range, and nothing otherwise. |
| `Display.RenderInjective` | js/script.js:25-35 | Two renderings with in-range cursors are equal only if the cursors are equal. |
| `Display.ExactlyOneDot` | js/script.js:38-42 | After a redraw, the set of highlighted dots is exactly {cursor}. |
| `Display.InitialDotsHighlightFirst` | js/script.js:7-13 | The freshly built dots highlight dot 0 and no other. |
| `Display.DotsFollowSlides` | js/script.js:25-42 | After a redraw, dot `i` is highlighted exactly when slide `i` is active. |
| `Navigation.Advance` | js/script.js:51-57 | The result is either `c + dir` or `c`. It is `c + dir` exactly when that is in range (or `dir` is 0). It stays in range. |
| `Navigation.JumpTo` | js/script.js:59-64 | The result is `index` exactly when `index` is in range (or already the cursor), and `c` otherwise. It stays in range. |
| `Navigation.OnKey` | js/script.js:67-70 | One key press keeps an in-range cursor in range and moves it by at most one slide. It moves forward only on ArrowRight and back only on ArrowLeft. |
| `Navigation.KeyMapping` | js/script.js:67-70 | ArrowRight is `Advance(1)`, ArrowLeft is `Advance(-1)`, and any other key leaves the cursor. |
| `Navigation.AdvanceUndone` | js/script.js:51-57 | An accepted move by `dir` is undone by a move by `-dir`. |
| `Navigation.RunStaysInRange` | js/script.js:51-70 | Starting on a slide, every sequence of key presses and dot clicks keeps the cursor on a slide. |
| `Navigation.RightsReach` | js/script.js:51-57 | `k` right-arrow presses from `c` reach `min(c + k, n - 1)`: they stop at the last slide and do not wrap. |
| `Navigation.ThreeRightsFromCover` | js/script.js:51-57 | From the cover with at least four slides, three right-arrow presses show slide 3. |
| `Navigation.ClickReaches` | js/script.js:59-64 | A click on an existing slide's dot shows that slide from any cursor. |
| `Apdu.Tags` | js/script.js:104-110 | The glossary's keys (the `apduInfo` table) are exactly CLA, INS, P1P2, Data and SW. |
| `Apdu.Accents` | js/script.js:105-109 | CLA, INS and P1P2 share the cyan accent. Data has the slate accent and SW the green one. |
| `Apdu.TagsNotInherited` | js/script.js:104-110 | No glossary tag is one of the names every plain object inherits. |
| `Apdu.ShownIdentifiesTag` | js/script.js:104-124 | No filled-in box equals the default box or the "undefined" box. Two tags fill in the same box only if they are the same tag. |
| `Apdu.ApduPanel.SetInfo` | js/script.js:112-118 | A glossary tag writes exactly that entry's title, description and base-plus-accent class. A name inherited from `Object.prototype` (`toString`, `constructor`, ...) finds no entry fields, so all three parts read "undefined". Any other name ends in a TypeError before anything is written, leaving the box unchanged. |
| `Apdu.ApduPanel.ClearInfo` | js/script.js:120-124 | The box shows the fixed default title, text and class, whatever it showed before. |

## Left out

- The field animation (`animateField`, the `waves` list and its drawing) is not modelled. It relies on floating point, `Math.random` and frame scheduling.
- `runSimulation` is not modelled. It is a timed DOM animation and holds no navigation state.
- `resizeFieldCanvas` and the window `resize` listener are not modelled. They only measure the DOM. A redraw's call to it is modelled only as a count of scheduled resizes (`resizeRequests`); the 100 ms delay and the resize itself are not modelled.
- The canvas branch of the load handler is not modelled. Only its `updateDisplay` call is.
- Element lookups, listener registration and `innerText` writes are not modelled as such. Their effects are fields of `Presentation` and `ApduPanel`.
- The dot container is assumed empty before the dots are appended. `dots` is then exactly the created dots.
- `dir` and `index` are modelled as integers. JavaScript's non-integer numbers are not modelled.
- Slide and dot styles other than those the redraw writes are not modelled.
