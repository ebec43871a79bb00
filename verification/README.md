# rc390 showcase: interaction logic in Dafny

This project models the small state machines and classifiers hidden in the UI
components of the rc390 motorcycle showcase (a React single-page app), and
proves properties about them. The logic is lifted out of the components as
pure functions:

- **3D menu** (`NfsNavbar`, `src/ui/NFSNavbar.jsx`). The uppercased copy of the
  navigation table, the circular neighbour indices, the arrow-key reducer,
  click selection, and the three display tiers (centre, neighbour, far)
  that `getTransform` assigns.
- **Navigation table** (`NavItems`, `src/ui/nav-items.jsx`). The five
  (label, path) entries.
- **Application shell** (`AppRoutes`, `src/App.jsx`, `src/hooks/usephone.js`).
  The route table with its root redirect, and the choice between the
  hamburger menu and the 3D menu by viewport width.
- **Manual viewer** (`ManualPager`, `src/pages/Manual.jsx`). The bounded
  page counter, Prev/Next, the digit-only input box, `parseInt` and
  "go to page".
- **Audio visualiser** (`AudioVisualizer`, `src/ui/AudioVisualizer.jsx`).
  The play/pause/ended machine with its element key, the analysis-state
  teardown and rebuild, and the byte-to-bar-length mapping.
- **Bundle splitter** (`ViteChunks`, `vite.config.js`). `manualChunks(id)`.
- **Foam overlay** (`FoamOverlay`, `src/pages/Garage.jsx`). The RGBA
  colour-buffer fill, the add-only set of touched vertices, and inflation
  along normals. The overlay component is commented out of the Garage
  page, but its logic is self-contained.

`Optional` (the `Option` type) and `Strings` (digits, ASCII case mapping,
substring search) are shared helpers.

The visualiser draws `barCount` bars, and bar `i` shows sample byte `i`: the default 64 bars read the first half of the 128-byte buffer. The foam overlay's pointer
handler records the first vertex of the face under the pointer in a
`hiddenVertices` state that nothing reads back. Its only visible effect is
an alpha write, which is left out.

Modelling conventions:
- JavaScript `%` is `JsRem` (truncating). All of its dividends here are non-negative.
- `rel > len / 2` is real division, written `2 * rel > len`.
- `null` page counts are `None`. `<` and `<=` coerce them to 0, while the strict
  equality behind the Next button does not.
- The foam alpha is stored in a `Float32Array`, so its value is the
  single-precision number nearest 0.7 (11744051 / 2^24).
- Bar lengths are exact over `real`, because the arithmetic only divides by 128 and multiplies by 32.

## Model

| member | source | states |
|---|---|---|
| NfsNavbar.ToNfsItems | src/ui/NFSNavbar.jsx:7-11 | the menu has one option per table entry, in order, with the label uppercased and the path copied |
| NfsNavbar.Menu | src/ui/NFSNavbar.jsx:7-11 | the 3D menu has as many options as the navigation table (five), and option `i` links to entry `i`'s path |
| NfsNavbar.MenuMirrorsTable | src/ui/NFSNavbar.jsx:7-11 | the rendered menu has the table's five entries in order, and its uppercased labels (the list keys) are pairwise distinct |
| NfsNavbar.GetIdx | src/ui/NFSNavbar.jsx:19 | for an offset that lands within one ring of the start, the index is in `[0, len)` and is the landing point, wrapped once if negative |
| NfsNavbar.LeftIdx | src/ui/NFSNavbar.jsx:20 | for a selection in range, the left item is the circular predecessor: `len - 1` at 0, else `selected - 1` |
| NfsNavbar.RightIdx | src/ui/NFSNavbar.jsx:21 | for a selection in range, the right item is the circular successor: 0 at `len - 1`, else `selected + 1` |
| NfsNavbar.HandleKeyDown | src/ui/NFSNavbar.jsx:25-36 | an in-range selection stays in range; ArrowRight and ArrowLeft select the right and left items; any other key keeps the selection; among the keys modelled, default scrolling is prevented iff the key is one of the four arrows |
| NfsNavbar.LeftUndoesRight | src/ui/NFSNavbar.jsx:26-33 | ArrowLeft after ArrowRight, and ArrowRight after ArrowLeft, restore the selection |
| NfsNavbar.PressRightAdvances | src/ui/NFSNavbar.jsx:26-29 | short of the ring's end, `n` ArrowRight presses advance the selection by exactly `n` |
| NfsNavbar.FullTurnIsIdentity | src/ui/NFSNavbar.jsx:26-29 | `len` consecutive ArrowRight presses return to the starting selection |
| NfsNavbar.RelOffset | src/ui/NFSNavbar.jsx:57-60 | the folded offset is congruent to `idx - selected` modulo `len` and, for in-range items, lies within half a ring of the selection |
| NfsNavbar.TierCharacterised | src/ui/NFSNavbar.jsx:62-96 | an in-range item gets the lowest zIndex, 1, iff it is neither the selection nor its circular predecessor or successor |
| NfsNavbar.TierOf | src/ui/NFSNavbar.jsx:62-96 | an item is in the centre tier iff it is the selection, and (in range) a neighbour iff it is the left or right item of the selection and not the selection itself |
| NfsNavbar.TierCounts | src/ui/NFSNavbar.jsx:62-96 | with three or more items, exactly one item is in the centre tier, exactly two are neighbours, and the remaining `len - 3` are far |
| NfsNavbar.HandleSelect | src/ui/NFSNavbar.jsx:50-53 | selecting item `idx` makes it the selection and navigates to that table entry's path |
| NavItems.TableOrder | src/ui/nav-items.jsx:3-101 | the table has five entries: Shop, Exhaust, Display, Garage, Manual |
| NavItems.PathsFollowLabels | src/ui/nav-items.jsx:5-80 | every entry's path is "/" followed by its label in lower case |
| NavItems.PathsDistinct | src/ui/HamburgerMenu.jsx:66-68 | the paths, used as list keys by the phone menu, are pairwise distinct |
| NavItems.UpperLabelsDistinct | src/ui/NFSNavbar.jsx:103-106 | the uppercased labels, used as list keys by the 3D menu, are pairwise distinct |
| AppRoutes.Lookup | src/App.jsx:22-29 | a path resolves iff some route has it, and the element found belongs to a route with that path |
| AppRoutes.RoutePathsDistinct | src/App.jsx:22-29 | no two routes share a path |
| AppRoutes.ShownPage | src/App.jsx:23-28 | a page is shown only at its own path, or (the display page) at the root; a path that shows nothing is neither the root nor any page's path |
| AppRoutes.RedirectOnlyAtRoot | src/App.jsx:23-28 | the only redirecting path is the root, and it redirects to "/display"; an unmatched path is neither the root nor a page's path |
| AppRoutes.RootRedirectsToDisplay | src/App.jsx:23 | "/" resolves to a redirect to "/display", so the display page is shown |
| AppRoutes.PageRoutesExact | src/App.jsx:24-28 | each page's path resolves to exactly that page, and no other path renders it |
| AppRoutes.NavTargetsHaveRoutes | src/App.jsx:24-28 | every navigation-table path shows a page, namely the page mounted at that path |
| AppRoutes.MenuSelectionShowsPage | src/ui/NFSNavbar.jsx:50-53 | selecting any 3D-menu item navigates to a path that shows a page |
| AppRoutes.ShowroomUnrouted | src/App.jsx:22-29 | "/showroom", linked from the old navbar, matches no route and shows nothing |
| AppRoutes.IsPhone | src/hooks/usephone.js:4 | a 768-pixel viewport is a phone and a 769-pixel one is not |
| AppRoutes.PhoneIsMonotone | src/hooks/usephone.js:4 | any viewport narrower than a phone's is a phone, and any one wider than a desktop's is a desktop |
| AppRoutes.OnResize | src/hooks/usephone.js:7 | the resize listener's new flag is the width predicate of the current width, whatever the previous flag; it is true iff the width is at most 768 |
| AppRoutes.PhoneTracksLatestWidth | src/hooks/usephone.js:4-7 | after any sequence of resizes, `isPhone` depends only on the latest width; 768 is a phone and 769 is not |
| AppRoutes.ChooseNavbar | src/App.jsx:20-21 | exactly one navigation bar is rendered, and it is the hamburger menu iff the width is at most 768 |
| ManualPager.Initial | src/pages/Manual.jsx:11-12 | the viewer starts on page 1 with no page count and an empty box |
| ManualPager.OnDocumentLoaded | src/pages/Manual.jsx:21-25 | loading the document records its page count and changes nothing else |
| ManualPager.HandlePrev | src/pages/Manual.jsx:49-53 | Prev moves back at most one page, moves exactly when the page is above 1, never goes below 1, and touches nothing else |
| ManualPager.HandleNext | src/pages/Manual.jsx:55-59 | Next moves forward at most one page, moves exactly when the page is below the (null-as-0) page count, and does nothing before the document loads |
| ManualPager.KeepDigits | src/pages/Manual.jsx:82 | the sanitised text contains only digits and is no longer than the input |
| ManualPager.KeepDigitsIsSubsequence | src/pages/Manual.jsx:82 | the sanitised text is a subsequence of the input |
| ManualPager.KeepDigitsCounts | src/pages/Manual.jsx:82 | every digit occurs in the sanitised text as often as in the input, and no other character occurs |
| ManualPager.KeepDigitsIdempotent | src/pages/Manual.jsx:82 | all-digit text is left unchanged, so sanitising twice equals sanitising once |
| ManualPager.HandleInputChange | src/pages/Manual.jsx:81-83 | typing leaves the page alone and puts a digit-only subsequence of the typed text in the box |
| ManualPager.ParseInt | src/pages/Manual.jsx:86 | parsing yields NaN exactly when the text does not start with a digit |
| ManualPager.ParseIntDigits | src/pages/Manual.jsx:86 | on non-empty all-digit text, parsing yields the decimal value of the whole text |
| ManualPager.LeadingZeroIgnored | src/pages/Manual.jsx:86 | a leading zero does not change the decimal value of a digit string |
| ManualPager.ParseLeadingZeroExample | src/pages/Manual.jsx:86 | the box text "05" parses as 5 |
| ManualPager.ParseIntRoundTrip | src/pages/Manual.jsx:86 | parsing the decimal numeral of any page number gives that number back |
| ManualPager.HandleInputGo | src/pages/Manual.jsx:84-91 | Go always clears the box; it jumps to the parsed page iff that page is in `[1, numPages]`, and otherwise (including NaN) keeps the page |
| ManualPager.PrevDisabled | src/pages/Manual.jsx:102 | in a valid state, the Prev button is disabled iff pressing it would change nothing |
| ManualPager.NextDisabled | src/pages/Manual.jsx:104 | Next is never disabled before the page count is known; once it is known, it is disabled iff pressing it would change nothing |
| ManualPager.ControlsPreserveValid | src/pages/Manual.jsx:49-91 | from the initial state, loading, Prev, Next, typing and Go all keep `1 <= page <= numPages` (page 1 before loading) and a digit-only box |
| ManualPager.UnloadedIsInert | src/pages/Manual.jsx:55-91 | before the document loads, Next and Go do not move the page, yet the Next button is not disabled |
| AudioVisualizer.Initial | src/ui/AudioVisualizer.jsx:13-14 | the visualiser starts paused with element key 0 and no drawing loop |
| AudioVisualizer.HandlePlayPause | src/ui/AudioVisualizer.jsx:107-115 | the toggle flips `isPlaying`; a start increments `audioKey`, a pause keeps it; the analysis state is untouched |
| AudioVisualizer.OnEnded | src/ui/AudioVisualizer.jsx:168 | the ended event stops playback and touches nothing else: the element key, the audio context, the source node, the analyser and the buffer all stay |
| AudioVisualizer.CleanupAudio | src/ui/AudioVisualizer.jsx:22-33 | cleanup drops the audio context, source, analyser and buffer, and keeps the play flag and key |
| AudioVisualizer.PlaybackEffect | src/ui/AudioVisualizer.jsx:35-54 | after the effect, an analyser exists iff playing with a mounted element, and its buffer holds `fftSize / 2 = 128` bytes |
| AudioVisualizer.DrawLoopRuns | src/ui/AudioVisualizer.jsx:57 | the drawing loop runs iff an analyser, a sample buffer and a mounted canvas all exist |
| AudioVisualizer.DrawLoopFollowsPlayback | src/ui/AudioVisualizer.jsx:56-57 | after cleanup the drawing loop cannot start; after the effect it runs exactly while playing |
| AudioVisualizer.ButtonLabel | src/ui/AudioVisualizer.jsx:149 | the button reads "Pause" iff playing, otherwise "Play" |
| AudioVisualizer.StartsTakeFreshKeys | src/ui/AudioVisualizer.jsx:107-115 | over any event sequence, each start takes a key larger than all earlier ones (a never-used `<audio>` element), and the key grows by exactly the number of starts |
| AudioVisualizer.BarLength | src/ui/AudioVisualizer.jsx:77-78 | the bar length of byte `b` is `b/4 - 14`, which lies in `[-14, 49.75]` |
| AudioVisualizer.BarLengthShape | src/ui/AudioVisualizer.jsx:77-78 | silence (byte 128) gives a bar of 18, and the bar length is monotone in the byte |
| AudioVisualizer.BarLengths | src/ui/AudioVisualizer.jsx:75-78 | a frame has one bar per bar index, and bar `i` takes its length from sample byte `i` when that byte exists |
| AudioVisualizer.BarsInBounds | src/ui/AudioVisualizer.jsx:75-77 | every bar reads a real sample iff `barCount` is at most the buffer length, so the default 64 bars fit the 128-byte buffer |
| ViteChunks.SourceChunk | vite.config.js:19-22 | application modules go to pages, ui, modules or main, never to a vendor chunk |
| ViteChunks.ManualChunks | vite.config.js:11-23 | the result is one of the nine chunk names; it starts with "vendor" iff the id contains "node_modules"; it is never "vendor-r3f" |
| ViteChunks.ReactThreeContainsThree | vite.config.js:13-16 | an id containing "@react-three" also contains "three" |
| ViteChunks.VendorPrecedence | vite.config.js:12-18 | inside node_modules, "three" wins over "react", "react" wins over "pdfjs-dist", and a package matching none of them goes to "vendor" |
| ViteChunks.SourcePrecedence | vite.config.js:19-22 | outside node_modules, "src/pages" wins over "src/ui", "src/ui" wins over "src/modules", an id matching only "src/modules" goes to "modules", and an id matching none of them is "main" |
| ViteChunks.R3fPackageMisfiled | vite.config.js:13-16 | the react-three-fiber package id is classified vendor-three |
| ViteChunks.ManualChunksIntended | vite.config.js:11-23 | the corrected classifier sends every node_modules id containing "@react-three" to vendor-r3f, and only such ids |
| ViteChunks.IntendedSeparatesR3f | vite.config.js:16 | the corrected classifier puts the react-three-fiber package in vendor-r3f |
| ViteChunks.IntendedAgreesElsewhere | vite.config.js:11-23 | on every id without "@react-three", the corrected classifier agrees with the original |
| FoamOverlay.BuildFoamColours | src/pages/Garage.jsx:73-80 | the fill loop produces `4 * count` components: alpha in every fourth slot and 1 elsewhere |
| FoamOverlay.FoamColoursPerVertex | src/pages/Garage.jsx:75-80 | in a freshly built buffer every vertex reads R = G = B = 1 and A = 0.7 (as single precision) |
| FoamOverlay.EnsureColourAttribute | src/pages/Garage.jsx:71-82 | a geometry keeps an existing 4-component colour attribute; otherwise it gets a new 4-component foam buffer of `4 * count` entries; the vertex count never changes |
| FoamOverlay.LazyColourAttribute | src/pages/Garage.jsx:53-58 | the pointer handler adds an all-ones buffer of `4 * count` entries only when the colour attribute is missing |
| FoamOverlay.RecordTouchedVertex | src/pages/Garage.jsx:44-50 | a move without a face or object changes nothing; otherwise the recorded `hiddenVertices` set grows by exactly the face's first vertex |
| FoamOverlay.RecordIdempotent | src/pages/Garage.jsx:45-50 | touching an already-recorded vertex leaves the recorded set as it is |
| FoamOverlay.RecordAllIsUnion | src/pages/Garage.jsx:45-50 | after any sequence of moves, the recorded set is the initial set plus every touched vertex, so it never shrinks |
| FoamOverlay.InflatePositions | src/pages/Garage.jsx:29-35 | the X/Y/Z update loop keeps the vertex count and moves each vertex by 0.01 times its normal |

## Left out

- Canvas drawing and trigonometry (circles, bar endpoints, the hexagon button), and all CSS and style strings returned by `getTransform`. The model keeps only the tier, which decides the zIndex.
- Building and closing the Web Audio graph, `requestAnimationFrame` scheduling, and `getByteTimeDomainData`. The sample buffer is a parameter of each frame.
- The timing of `cleanupAudio`'s captured closure, which releases a previous context one toggle late. The model keeps only the state it clears.
- PDF loading and rendering, and the anti-right-click listeners. The page count arrives through `OnDocumentLoaded`.
- Enter/Space activation in `handleKeyDown`. It reads `document.activeElement`, which lies outside the component.
- The three.js scene: the camera, lights, orbit controls and the `Rc390` model. Also the `setW(idx * 4 + 3, 0)` alpha write, whose effect depends on `BufferAttribute` indexing that is not part of this model. That write is the pointer handler's only visible effect: the `hiddenVertices` set it records is never read, so the model does not claim that any foam is hidden.
- react-router's own matching rules (case-insensitive paths, trailing slashes). Routes are matched by exact path.
- The resize and keydown listener plumbing and the tire-skid trail. The width predicate is kept.
- Thin UI without logic: the hamburger menu's open toggle and animation, the loader, the error boundary, the query provider, the page layout, the page shells, and the tailwind theme.
- ManualPager.ParseInt: models `parseInt` on text that starts with its digits. Leading whitespace and signs are not handled, because the box only ever holds sanitised digits. Digit strings beyond 2^53 are exact here, while JavaScript rounds them; the comparison with the page count comes out the same for any realistic count.
- Strings.ToUpper: ASCII-only case mapping, which is all the table's labels need. `toUpperCase` and `toLowerCase` on non-ASCII text are not modelled.
- FoamOverlay.InflatePositions: computes over reals. The single-precision rounding of `0.01 * normal` in the position buffer is not modelled.

## Findings

| source | as written | input that shows it | evidently intended | confidence | as-written member | corrected member |
|---|---|---|---|---|---|---|
| vite.config.js:13-16 | the "three" test runs before the "@react-three" test, and every id containing "@react-three" contains "three", so the vendor-r3f branch can never be taken | `node_modules/@react-three/fiber/index.js` is classified vendor-three | react-three packages get their own vendor-r3f chunk | medium; not executed | ViteChunks.R3fPackageMisfiled | ViteChunks.IntendedSeparatesR3f |
