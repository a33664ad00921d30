# Clothy screen-state model

A Dafny model of the state-update rules behind three screens of Clothy, a demo
front-end for a fashion-styling product:

- **Style profile** (`src/components/StyleProfile.tsx`): a four-step
  questionnaire. A step counter starts at 1. Previous moves it back and Next
  moves it forward, each stopping at the ends. On step 4 the forward button
  completes the profile through the screen's `onBack` callback instead of
  advancing. Style tags and lifestyle occasions are multi-select lists. The
  colour palette and body type are single selections where the last click
  wins. The progress bar is drawn from the step.
- **Outfit suggestions** (`src/components/OutfitSuggestions.tsx`): a fixed
  catalog of four outfits. An occasion filter compares occasions ignoring
  letter case, and the value `"all"` shows the whole catalog. A list of liked
  outfit ids drives each card's heart.
- **Wardrobe upload** (`src/components/WardrobeUpload.tsx`): dropped or picked
  files are kept only when their MIME type starts with `image/`. Each kept
  file becomes an object-URL handle appended to the list of uploaded items.
  Items are removed by position, and a flag records whether a drag is over
  the drop zone.

The three multi-select lists (`selectedStyle`, `lifestyle`, `likedOutfits`)
share one rule, the toggle. If the value is in the list, `filter` removes
every occurrence of it. Otherwise the value is appended at the end. The
module `Selection` states it once. `Sequences.Filter` models
`Array.prototype.filter`, which the toggle and the occasion filter both use.

Each component's `useState` fields are the fields of a class (`StyleProfile`,
`OutfitSuggestions`, `WardrobeUpload`). Each setter is an immediate update.
The source's `prev => …` updates make this sequential reading faithful.
`handleFileUpload` is a method with a loop, proved against the function
`ImageUrls`. The pure rules (toggle, filters, step moves, removal by index)
are functions, and their properties are lemmas.

Three behaviours of the code that the model keeps exactly:

- The toggles work on ordered lists: they append at the end and remove with
  `filter`, so order and duplicates are modelled.
- A liked id's membership after `n` toggles is its initial membership XOR
  (`n` is odd); from the empty start state this is the parity of `n`
  (`Selection.ToggleParity`).
- Filtering ignores letter case, but the test for `"all"` is an exact string
  comparison (`OutfitSuggestions.tsx:72`). So `"All"` is an ordinary filter
  value that matches no outfit (`OutfitScreen.AllFilterIsCaseSensitive`). No
  filter badge sets it, so users never see this.

## Model

| member | source | states |
|---|---|---|
| `Sequences.Filter` | src/components/OutfitSuggestions.tsx:74 | `filter` returns only elements of the input that the predicate accepts, keeps every accepted element, and returns an order-preserving subsequence of the input |
| `Sequences.FilterMultiplicity` | src/components/OutfitSuggestions.tsx:74 | `filter` keeps every occurrence of an accepted value and none of a rejected one |
| `Sequences.FilterAppend` | src/components/OutfitSuggestions.tsx:74 | filtering a concatenation is the concatenation of the filtered parts, so relative order is kept |
| `Sequences.FilterKeepsAll` | src/components/StyleProfile.tsx:38 | a filter that accepts every element returns its input unchanged |
| `Sequences.FilterAgreeing` | src/components/OutfitSuggestions.tsx:74 | predicates that agree on every element select the same list |
| `Sequences.FilterNoDuplicates` | src/components/OutfitSuggestions.tsx:67 | filtering a duplicate-free list gives a duplicate-free list |
| `Selection.Without` | src/components/StyleProfile.tsx:38 | `filter(id => id !== x)` removes `x` entirely, keeps every other value, and keeps the rest in order |
| `Selection.Toggle` | src/components/StyleProfile.tsx:35-41 | toggling flips whether `x` is in the list and leaves every other value's membership unchanged; an absent `x` is appended at the end; removing a present `x` keeps the rest in order |
| `Selection.ToggleNoDuplicates` | src/components/StyleProfile.tsx:36-48 | toggling keeps a duplicate-free list duplicate-free |
| `Selection.WithoutAbsent` | src/components/StyleProfile.tsx:38 | removing a value the list does not hold leaves the list identical |
| `Selection.ToggleTwiceRestores` | src/components/StyleProfile.tsx:37-39 | toggling an absent value twice restores the original list exactly |
| `Selection.ToggleRemovesOneEntry` | src/components/OutfitSuggestions.tsx:66-68 | in a duplicate-free list, toggling a present value removes exactly its entry, the length drops by one, and the others keep their order |
| `Selection.ToggleParity` | src/components/OutfitSuggestions.tsx:64-70 | after `n` toggles of the same id, its membership is the initial membership XOR `n` is odd |
| `Selection.ToggleTimesOthers` | src/components/OutfitSuggestions.tsx:64-70 | any number of toggles of one id leaves every other id's membership unchanged |
| `StyleProfileScreen.StepAfterNext` | src/components/StyleProfile.tsx:51-53 | `nextStep` keeps a step in 1..4; it leaves the step unchanged exactly at step 4 and otherwise adds one |
| `StyleProfileScreen.StepAfterPrevious` | src/components/StyleProfile.tsx:55-57 | `prevStep` keeps a step in 1..4; it leaves the step unchanged exactly at step 1 and otherwise subtracts one |
| `StyleProfileScreen.ForwardActionAt` | src/components/StyleProfile.tsx:269-276 | the forward button completes the profile (calls `onBack`) exactly on step 4 and otherwise advances |
| `StyleProfileScreen.StepStaysInRange` | src/components/StyleProfile.tsx:51-57 | from any step in 1..4, any sequence of Previous/forward presses leaves the step in 1..4 |
| `StyleProfileScreen.StepMovesAtMostOnePerPress` | src/components/StyleProfile.tsx:51-57 | `n` button presses move the step by at most `n` |
| `StyleProfileScreen.Press` | src/components/StyleProfile.tsx:259-276 | one press of Previous or the forward button keeps a step in 1..4, moves it by at most one, and leaves it at 4 when the forward button completes the profile |
| `StyleProfileScreen.PressAll` | src/components/StyleProfile.tsx:51-57 | from a step in 1..4, `n` Next presses advance `n` steps but stop at 4, and `n` Previous presses go back `n` steps but stop at 1 |
| `StyleProfileScreen.ThreeForwardsReachLastStep` | src/components/StyleProfile.tsx:269-276 | from step 1, three forward presses reach step 4, where the next press completes the profile and the step stays at 4 |
| `StyleProfileScreen.CircleFilled` | src/components/StyleProfile.tsx:87 | the first circle is highlighted on every step and all four on step 4 |
| `StyleProfileScreen.ConnectorFilled` | src/components/StyleProfile.tsx:93 | the connector after circle k is highlighted exactly when circle k + 1 is |
| `StyleProfileScreen.FilledCirclesUpTo` | src/components/StyleProfile.tsx:84-90 | among circles 1..n, the highlighted ones are exactly those numbered up to the step |
| `StyleProfileScreen.ProgressBarShowsStep` | src/components/StyleProfile.tsx:84-97 | on step s (1..4) exactly s circles are highlighted, and the connector after circle k is highlighted iff both circles it joins are |
| `StyleProfileScreen.AfterClicks` | src/components/StyleProfile.tsx:152-160 | after a series of clicks on single-selection cards, the selection is the last card clicked, or unchanged if none was clicked |
| `StyleProfileScreen.StyleProfile.constructor` | src/components/StyleProfile.tsx:29-33 | initial state: no styles, no palette, no body type, no lifestyle items, step 1 |
| `StyleProfileScreen.StyleProfile.ToggleStyle` | src/components/StyleProfile.tsx:35-41 | `selectedStyle` becomes its toggle by the clicked id, stays duplicate-free, and the id's membership flips |
| `StyleProfileScreen.StyleProfile.ToggleLifestyle` | src/components/StyleProfile.tsx:43-49 | `lifestyle` becomes its toggle by the clicked item, stays duplicate-free, and the item's membership flips |
| `StyleProfileScreen.StyleProfile.NextStep` | src/components/StyleProfile.tsx:51-53 | the step moves as `StepAfterNext` says and stays in 1..4 |
| `StyleProfileScreen.StyleProfile.PrevStep` | src/components/StyleProfile.tsx:55-57 | the step moves as `StepAfterPrevious` says and stays in 1..4 |
| `StyleProfileScreen.StyleProfile.PressForward` | src/components/StyleProfile.tsx:269-276 | the completion callback fires exactly on step 4, where the step stays; otherwise `nextStep` runs |
| `StyleProfileScreen.StyleProfile.SetSelectedColors` | src/components/StyleProfile.tsx:152-160 | the palette selection is the palette last clicked |
| `StyleProfileScreen.StyleProfile.ClickPalettes` | src/components/StyleProfile.tsx:152-160 | clicking palette cards in turn leaves the selection `AfterClicks` gives: the last palette clicked |
| `StyleProfileScreen.StyleProfile.SetBodyType` | src/components/StyleProfile.tsx:194-202 | the body-type selection is the type last clicked |
| `OutfitScreen.LowerChar` | src/components/OutfitSuggestions.tsx:74 | `toLowerCase` on one character maps an ASCII capital to its small letter and leaves every other character alone |
| `OutfitScreen.Lower` | src/components/OutfitSuggestions.tsx:74 | `toLowerCase` keeps the length and lowers each position independently |
| `OutfitScreen.LowerIdempotent` | src/components/OutfitSuggestions.tsx:74 | lowering a lowered string changes nothing |
| `OutfitScreen.LoweredFilterShowsSame` | src/components/OutfitSuggestions.tsx:74 | a filter value and its lowered form show the same cards when neither is exactly `"all"` |
| `OutfitScreen.FilterByOccasion` | src/components/OutfitSuggestions.tsx:72-74 | filter `"all"` yields the whole catalog in order; any other filter yields an order-preserving subsequence holding exactly the records whose lowered occasion equals the lowered filter |
| `OutfitScreen.VisibleOutfits` | src/components/OutfitSuggestions.tsx:72-74 | `filteredOutfits` shows all four outfits under `"all"` and otherwise catalog records only, in catalog order |
| `OutfitScreen.FilterByOccasionMultiplicity` | src/components/OutfitSuggestions.tsx:74 | under a filter other than `"all"`, a matching record appears as often as in the catalog and a non-matching one never |
| `OutfitScreen.FilterIgnoresCase` | src/components/OutfitSuggestions.tsx:74 | two filters other than `"all"` that differ only in letter case give the same cards |
| `OutfitScreen.AllFilterIsCaseSensitive` | src/components/OutfitSuggestions.tsx:72-74 | `"All"` lowers like `"all"`, yet `"all"` shows the four outfits and `"All"` shows none |
| `OutfitScreen.CatalogOccasionsLowered` | src/components/OutfitSuggestions.tsx:11-52 | the catalog's occasions lower to "casual", "work", "date night" and "creative" |
| `OutfitScreen.CatalogIds` | src/components/OutfitSuggestions.tsx:11-52 | `mockOutfits` holds four outfits with ids 1 to 4 in display order, all distinct |
| `OutfitScreen.CatalogFilter` | src/components/OutfitSuggestions.tsx:11-52 | filtering the catalog decides each of the four records in catalog order |
| `OutfitScreen.FilterButtonsSelectOneOutfit` | src/components/OutfitSuggestions.tsx:106-133 | the badges "work", "casual" and "date night" show exactly outfit 2, outfit 1 and outfit 3 |
| `OutfitScreen.CreativeOutfitOnlyUnderAll` | src/components/OutfitSuggestions.tsx:106-133 | outfit 4 is shown iff the filter is `"all"` or lowers to "creative"; among the four badge values only `"all"` shows it |
| `OutfitScreen.OutfitSuggestions.constructor` | src/components/OutfitSuggestions.tsx:61-62 | initial state: filter `"all"` and no liked outfits |
| `OutfitScreen.OutfitSuggestions.SetFilter` | src/components/OutfitSuggestions.tsx:106-133 | the active filter is the badge value last clicked |
| `OutfitScreen.OutfitSuggestions.FilteredOutfits` | src/components/OutfitSuggestions.tsx:72-74 | the cards for the active filter: all four under `"all"`, otherwise exactly the catalog records whose lowered occasion equals the lowered filter |
| `OutfitScreen.OutfitSuggestions.IsLiked` | src/components/OutfitSuggestions.tsx:140 | `likedOutfits.includes(id)`: a card is liked iff some position of the liked list holds its id |
| `OutfitScreen.OutfitSuggestions.ToggleLike` | src/components/OutfitSuggestions.tsx:64-70 | the liked list becomes its toggle by the id and stays duplicate-free; that card's `isLiked` flips and every other card's is unchanged |
| `WardrobeScreen.StartsWith` | src/components/WardrobeUpload.tsx:17 | `startsWith` holds iff the string is at least as long as the prefix and agrees with it at each of its positions |
| `WardrobeScreen.IsImage` | src/components/WardrobeUpload.tsx:17 | a file passes iff its type's first six characters are `image/`, case-sensitively |
| `WardrobeScreen.ImageTypes` | src/components/WardrobeUpload.tsx:17 | `image/png` and `image/` pass; `application/pdf`, `image`, `Image/png` and the empty type do not |
| `WardrobeScreen.ImageUrls` | src/components/WardrobeUpload.tsx:15-21 | an upload yields at most one handle per file, only for image files, and one for every image file |
| `WardrobeScreen.ImageUrlsAreFilteredImages` | src/components/WardrobeUpload.tsx:15-21 | the handles are exactly one per file whose type starts with `image/`, in the order of the files |
| `WardrobeScreen.ImageUrlsAppend` | src/components/WardrobeUpload.tsx:16-19 | uploading two batches one after the other appends the same handles in the same order as uploading them together |
| `WardrobeScreen.ImageUrlsAllOrNone` | src/components/WardrobeUpload.tsx:15-21 | all-image batches add one entry per file; batches with no image add nothing |
| `WardrobeScreen.MixedBatch` | src/components/WardrobeUpload.tsx:15-21 | two images around a non-image give exactly two entries, the first image's first |
| `WardrobeScreen.KeepOtherPositions` | src/components/WardrobeUpload.tsx:40-42 | the index filter removes exactly the item at an in-range index and leaves the list identical for a negative or too-large index |
| `WardrobeScreen.WardrobeUpload.constructor` | src/components/WardrobeUpload.tsx:12-13 | initial state: no items, not dragging |
| `WardrobeScreen.WardrobeUpload.HandleFileUpload` | src/components/WardrobeUpload.tsx:15-22 | the loop appends `ImageUrls(files)` to the list, and earlier items stay an unchanged prefix |
| `WardrobeScreen.WardrobeUpload.HandleDrop` | src/components/WardrobeUpload.tsx:24-29 | a drop clears the drag flag and uploads the dropped files |
| `WardrobeScreen.WardrobeUpload.HandleDragOver` | src/components/WardrobeUpload.tsx:31-34 | a drag-over sets the drag flag |
| `WardrobeScreen.WardrobeUpload.HandleDragLeave` | src/components/WardrobeUpload.tsx:36-38 | a drag-leave clears the drag flag |
| `WardrobeScreen.WardrobeUpload.RemoveItem` | src/components/WardrobeUpload.tsx:40-42 | the list becomes the index filter of the old list: one item shorter for an in-range index, identical otherwise |
| `WardrobeScreen.WardrobeUpload.ItemCount` | src/components/WardrobeUpload.tsx:59 | the header badge counts the items; it is zero iff the list is empty |
| `WardrobeScreen.WardrobeUpload.ShowsWardrobeGrid` | src/components/WardrobeUpload.tsx:118 | the wardrobe grid is shown iff the list is not empty |

## Left out

- The view switch in `src/pages/Index.tsx` is not part of this model. It assigns one of four tags and renders the matching screen.
- JSX rendering is not modelled: class names, icons, images, the weather-icon table, marketing text, and the item-name text inputs, which keep no state.
- The option lists (style types, colour palettes, body types, lifestyle occasions) are not modelled. They only decide which strings the card clicks pass to the toggles and setters, and the model accepts any string there.
- `URL.createObjectURL` is a browser call. It is modelled as the constructor `ObjectUrl(file)`, so the URL text and the uniqueness of each handle are not captured.
- DOM and event plumbing are not modelled: `preventDefault`, `document.getElementById(...).click()`, `FileList` and `DataTransfer`. A file is just its MIME type and contents.
- React's batched, asynchronous `setState` is read as immediate sequential updates. `nextStep` and `prevStep` read `currentStep` directly rather than through `prev =>`. That is the same under this reading.
- Outfit ratings are decimal numbers that no rule uses, so they are omitted.
- `toLowerCase` is modelled on ASCII letters only. Unicode case mapping is not modelled.
- The header back buttons call `onBack` directly. Leaving a screen is navigation, not state, so they are not modelled.
- The questionnaire variant with a gender step is not in these files. The Regenerate, Generate More, Share, Try This Look and Customize buttons have no handlers.
