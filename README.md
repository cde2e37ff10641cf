# Stoneify site: active-section tracking, category filters and section state

A model, in Dafny, of the little logic in a single-page marketing site for a
marble and granite supplier. The page component keeps an `activeSection` id
for the navigation bar and updates it on every scroll event. The product
catalog and the gallery each show a fixed list of stones that can be narrowed
to one category. The gallery also opens a lightbox on the clicked image. Both
sections switch on an entry animation once they scroll into view.

Files, one module each:

- `optional.dfy`: `Option`, for nullable values and the optional price.
- `category_filter.dfy`: the filter shared by products and gallery
  (`all` / `marble` / `granite`): `Keep` is `items.filter(x => x.category === c)`
  and `Displayed` adds the `'all'` case. Lemmas cover membership, order,
  counts, partition, idempotence and uniqueness.
- `products.dfy`: the `Product` record, the shipped catalog, `FilteredProducts`
  and the `ProductsSection` class holding `activeCategory` and `isVisible`.
- `gallery.dfy`: the `GalleryImage` record, the shipped images, `FilteredImages`
  and the `GallerySection` class holding `filter`, `selectedImage` and
  `isVisible`.
- `app.dfy`: the active-section resolver. `FirstMatch` and `Resolve` are the
  pure specification. The `AppState` class holds `activeSection`, and its
  `HandleScroll` method is the scan loop with its early `break`. The lemmas
  cover first match wins, retain on no match, half-open bounds, skipped
  sections, idempotence and monotone scrolling.

The browser is reduced to parameters. `scrollY` is an integer. The result of
`document.getElementById` plus `offsetTop`/`offsetHeight` is a
`Layout = map<string, Extent>`, where a missing key means the element is not in
the page. An intersection-observer callback becomes a call with the entry's
`isIntersecting` flag.

## Model

| member | source | states |
|---|---|---|
| `App.FirstMatch` | src/App.tsx:17-28 | the result is the index of a section whose element exists and whose half-open extent contains the position, and no earlier section's does; no result means no section's extent contains it |
| `App.Resolve` | src/App.tsx:13-29 | the new active section is the old one or a declared section id; when it changes, the new section's extent contains `scrollY + 100`; when no extent contains `scrollY + 100`, it stays the old one |
| `App.SectionIdsDistinct` | src/App.tsx:14 | the five section ids are pairwise distinct, so each has one place in document order |
| `App.ResolveFirstMatchWins` | src/App.tsx:17-26 | if section i contains the probe and no earlier section does, section i becomes active, whatever later sections contain |
| `App.ResolveRetains` | src/App.tsx:17-28 | when no section contains the probe, the active section is unchanged |
| `App.AbsentSectionSkipped` | src/App.tsx:18-19 | a section whose element is absent never becomes active |
| `App.ResolveHalfOpen` | src/App.tsx:20-23 | a probe exactly at a section's bottom does not select it; a probe exactly at its top selects it when its height is positive and no earlier section contains the probe |
| `App.EmptySectionSkipped` | src/App.tsx:20-23 | a section of height zero or less never becomes active |
| `App.ResolveIdempotent` | src/App.tsx:17-28 | handling the same scroll event twice gives the same active section as handling it once |
| `App.LaterSectionsNotConsulted` | src/App.tsx:23-25 | two layouts that agree on the sections up to the first match resolve to the same section: later sections are not consulted |
| `App.FirstMatchMonotone` | src/App.tsx:17-26 | in a layout whose extents follow document order without overlapping, a lower probe never matches a later section than a higher probe |
| `App.ResolveStepForward` | src/App.tsx:14-26 | in such a layout, one scroll event at an offset no lower than the one that set the active section moves it forward in document order or leaves it |
| `App.ScrollingDownNeverMovesBack` | src/App.tsx:14-26 | from the initial state, non-decreasing scroll offsets over such a layout give active sections that never go back in document order |
| `App.ThreeSectionExample` | src/App.tsx:13-29 | with home [0,800), about [800,1600) and products [1600,2400): offset 750 selects about, 1500 selects products (inclusive top), 1499 still selects about |
| `App.AppState.constructor` | src/App.tsx:10 | the active section starts as 'home', a declared section |
| `App.AppState.HandleScroll` | src/App.tsx:13-29 | the scan loop leaves exactly the section `Resolve` gives, and the active section stays one of the five declared ids |
| `CategoryFilter.Keep` | src/components/Products.tsx:87 | the filtered list is never longer than the array |
| `CategoryFilter.KeepMembers` | src/components/Products.tsx:87 | every kept item is in the array and has the chosen category; every array item of that category is kept |
| `CategoryFilter.KeepIsSubsequence` | src/components/Products.tsx:87 | the filtered list is a subsequence of the array: original relative order is kept |
| `CategoryFilter.KeepCounts` | src/components/Products.tsx:87 | each item of the chosen category is kept as many times as it occurs; no other item is kept |
| `CategoryFilter.KeepAppend` | src/components/Products.tsx:87 | filtering a concatenation is the concatenation of the filtered parts |
| `CategoryFilter.KeepPartition` | src/components/Products.tsx:87 | the marble and granite lists partition the array: lengths add up and multisets add up to the array's |
| `CategoryFilter.KeepIdempotent` | src/components/Products.tsx:87 | filtering an already filtered list by the same category returns it unchanged |
| `CategoryFilter.KeepOtherEmpty` | src/components/Gallery.tsx:87 | filtering an already filtered list by the other category returns nothing |
| `CategoryFilter.KeepIsUnique` | src/components/Gallery.tsx:87 | any subsequence of the array made only of items of the chosen category and at least as long as the filtered list is the filtered list |
| `CategoryFilter.Displayed` | src/components/Gallery.tsx:85-87 | under 'all' the displayed list is the array itself; otherwise it holds exactly the array items of the chosen category, each as many times as it occurs, as a subsequence |
| `Products.FilteredProducts` | src/components/Products.tsx:85-87 | under 'all' the products array itself; otherwise exactly the products whose category is the active one, each as often as in the catalog, in catalog order |
| `Products.ProductsPartition` | src/components/Products.tsx:85-87 | the marble and granite product lists together hold every product exactly once |
| `Products.ProductsFilterIdempotent` | src/components/Products.tsx:85-87 | filtering the displayed products again by the same choice changes nothing |
| `Products.MarbleProducts` | src/components/Products.tsx:34-87 | on the shipped catalog the marble filter shows products 1, 2 and 5, in that order |
| `Products.GraniteProducts` | src/components/Products.tsx:34-87 | on the shipped catalog the granite filter shows products 3, 4 and 6, in that order |
| `Products.ProductsSection.constructor` | src/components/Products.tsx:13-14 | the category starts as 'all' and the section starts not visible |
| `Products.ProductsSection.SelectCategory` | src/components/Products.tsx:111 | a category button sets the active category to that button's value and leaves visibility alone |
| `Products.ProductsSection.ObserveIntersection` | src/components/Products.tsx:18-22 | visibility becomes true on an intersecting entry and otherwise stays as it was, so once true it stays true; the category is untouched |
| `Gallery.FilteredImages` | src/components/Gallery.tsx:85-87 | under 'all' the images array itself; otherwise exactly the images of the chosen category, each as often as in the array, in original order |
| `Gallery.ImagesPartition` | src/components/Gallery.tsx:85-87 | the marble and granite grids together hold every image exactly once |
| `Gallery.ImagesCategories` | src/components/Gallery.tsx:34-83 | the shipped images have categories marble, marble, granite, granite, marble, granite, marble, granite |
| `Gallery.MarbleImages` | src/components/Gallery.tsx:34-87 | on the shipped images the marble filter shows images 1, 2, 5 and 7, in that order |
| `Gallery.GraniteImages` | src/components/Gallery.tsx:34-87 | on the shipped images the granite filter shows images 3, 4, 6 and 8, in that order |
| `Gallery.GallerySection.constructor` | src/components/Gallery.tsx:12-14 | filter 'all', no selected image, not visible |
| `Gallery.GallerySection.LightboxOpen` | src/components/Gallery.tsx:162 | the lightbox is shown exactly when an image is selected |
| `Gallery.GallerySection.SelectFilter` | src/components/Gallery.tsx:119 | a filter button sets the filter and leaves the selected image and visibility untouched |
| `Gallery.GallerySection.ClickImage` | src/components/Gallery.tsx:135-142 | clicking the image at a grid position selects that image of the filtered list, so it is in the filtered list and matches the filter; the lightbox is then open |
| `Gallery.GallerySection.CloseLightbox` | src/components/Gallery.tsx:162-166 | closing clears the selected image, so the lightbox is no longer shown; nothing else changes |
| `Gallery.GallerySection.ObserveIntersection` | src/components/Gallery.tsx:18-22 | visibility becomes true on an intersecting entry and otherwise stays as it was, so once true it stays true; filter and selection are untouched |

## Left out

- Rendering is not modelled: JSX, Tailwind class strings, inline styles and the per-item `transitionDelay`. `isVisible` only chooses CSS classes.
- Browser APIs are not modelled: `IntersectionObserver` (including its 0.3 threshold and the check that the section element exists before observing), `document.getElementById`, `window.scrollY` and `addEventListener`/`removeEventListener`. Their results are parameters. Scroll offsets and extents are integers, so fractional pixel values are not modelled.
- Listener and observer lifecycle is not modelled: registration on mount, removal and `observer.disconnect()` on unmount. It is resource handling with no effect on the state modelled here.
- React's batching and re-rendering are not modelled. A state setter is an immediate field assignment.
- Clicks on gallery images are modelled by their position in the rendered grid. The grid only renders the filtered images, so no other image can be clicked.
- The hero, about and contact sections are not part of this model: they hold static content, an on-mount flag or the same visibility latch. The navigation component that consumes `activeSection` is not part of this model either.
- CategoryFilter.Keep: its own contract only bounds the length. Membership, order and counts are stated by the lemmas beside it, which keeps each proof small.
