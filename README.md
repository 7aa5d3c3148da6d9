# Page behaviour of the monstergrips site, modelled in Dafny

This project models `assets/js/custom.js`, the script behind the site's pages. It has three independent parts:

- **Modal controller** (`modal.dfy`, `youtube.dfy`). These are the overlay's body markup, its `show` class and the page body's `modal-open` class. The events that change them are a trigger click, the close control, Escape, and a click on the backdrop. Before content is shown, every `[youtube:ID]` placeholder in it is rewritten into a player, using the regular expression `/\[youtube:([^\]]+)\]/g`.
- **Post sorter** (`posts.dfy`, `date_sort.dfy`). The `article` elements of the posts section are reordered by their `data-date`. Only the value `"newest"` sorts descending; every other value sorts ascending. At start-up an empty control value falls back to `"newest"`.
- **Review loader** (`reviews.dfy`, `stars.dfy`). This part holds the fetched reviews, the cursor `reviewIndex` (advanced in batches of 10), the rendered cards, whether "load more" is hidden, the `isLoading` scroll guard and the sort listener. Each card shows a five-glyph star rating.

Events are methods on a state object: `ModalController`, `PostSorter` and `ReviewLoader`. The rendered list is a sequence of cards, and new cards are appended at its end. Dates are integer timestamps. The player markup is a parameter `embed` of the rewrite: a function from the ID to the markup.

Four behaviours of the code are easy to misread, and the model keeps them:

- The cursor is not clamped. With 25 reviews it ends at 30, not 25 (`Reviews.TwentyFiveReviews`).
- Nothing ever shows "load more" again once it is hidden. A later sort-control change resets the cursor and shows one batch, but the button stays hidden, and from then on only the scroll handler loads further batches (`Reviews.ResortAfterExhaustion`).
- A click on "load more" before the request settles hides the button for good (`Reviews.ClickBeforeFetch`).
- The sort listener is only registered after a successful fetch. Before that, a change of the control does nothing.

The class invariant of `ReviewLoader` is that the rendered cards are always the cards of the current order, up to the cursor.

## Model

| member | source | states |
|---|---|---|
| `DateSort.SortByDateIsSort` | assets/js/custom.js:139-144 | sorting leaves a permutation of the input of the same length, in descending date order exactly when the direction is "newest" and ascending order otherwise |
| `DateSort.SortPermutes` | assets/js/custom.js:140-144 | the sort's result is a permutation of its input |
| `DateSort.SortOrdered` | assets/js/custom.js:140-144 | the sort's result is ordered under the comparator for the chosen direction |
| `DateSort.OrderedUnique` | assets/js/custom.js:74-78 | when equal dates mean equal elements, only one ordering of a multiset of elements satisfies the comparator |
| `DateSort.NewestThenOldestReverses` | assets/js/custom.js:74-78 | with distinct dates, sorting by "newest" and then by "oldest" gives exactly the reverse of the "newest" order |
| `Stars.CreateStarRating` | assets/js/custom.js:102-108 | the loop's result is the stars span around glyph i, counted from 1, which is filled exactly when i <= rating, for i = 1..5 |
| `Stars.GlyphsSplit` | assets/js/custom.js:104-106 | the five glyphs are max(0, min(5, rating)) filled glyphs followed by hollow ones |
| `Stars.FilledCount` | assets/js/custom.js:104-106 | max(0, min(5, rating)) glyphs are filled and the rest of the five are hollow |
| `Stars.RatingThree` | assets/js/custom.js:102-108 | rating 3 renders three filled glyphs and then two hollow ones |
| `YouTube.MatchAt` | assets/js/custom.js:35 | a match found at a position is the tag, a nonempty ID free of `]`, and `]` |
| `YouTube.MatchAtComplete` | assets/js/custom.js:35 | every occurrence of the pattern at a position is found, with the full ID up to the first `]` |
| `YouTube.MatchIsUnique` | assets/js/custom.js:35 | the pattern matches at most one way at any position |
| `YouTube.RewritePlaceholder` | assets/js/custom.js:34-38 | a placeholder with a well-formed ID becomes the player for that ID, and the scan resumes right after its `]` |
| `YouTube.PlainTextKept` | assets/js/custom.js:34-38 | text without `[` passes through unchanged, whatever follows it |
| `YouTube.EmptyIdKept` | assets/js/custom.js:35 | `[youtube:]`, with an empty ID, is not rewritten |
| `YouTube.NoPlaceholderKept` | assets/js/custom.js:34-38 | content in which the pattern matches at no position is returned unchanged |
| `YouTube.NoClosingBracketNoMatch` | assets/js/custom.js:35 | text without `]` holds no match |
| `YouTube.NoClosingBracketKept` | assets/js/custom.js:34-38 | content without `]` is returned unchanged |
| `YouTube.RewriteOnlyTouchesMatches` | assets/js/custom.js:34-38 | replacing each match by its own text gives back the input, so only matched placeholders change and all other text is kept in order |
| `Modal.ModalController.constructor` | assets/js/custom.js:5-8 | the overlay starts hidden, with both class marks absent |
| `Modal.ModalController.Open` | assets/js/custom.js:9-14 | the body becomes the given markup and both class marks are set |
| `Modal.ModalController.Close` | assets/js/custom.js:16-21 | the body is cleared and both class marks are removed, whatever the previous state |
| `Modal.ModalController.ClickTrigger` | assets/js/custom.js:23-45 | with a content block, the overlay opens showing its rewritten markup; without one, nothing changes |
| `Modal.ModalController.KeyDown` | assets/js/custom.js:49-53 | Escape closes a shown overlay, and after Escape neither class mark is set; any other key, or Escape while hidden, changes nothing |
| `Modal.ModalController.ClickOverlay` | assets/js/custom.js:55-59 | a click on the backdrop itself closes the overlay; a click on its content changes nothing |
| `Modal.OpenThenCloseTwice` | assets/js/custom.js:9-21 | content without placeholders is shown unchanged, and one or two closes leave the overlay empty and closed |
| `Posts.PostSorter.constructor` | assets/js/custom.js:65-88 | the initial sort leaves the articles a permutation of the children, ordered by the control's value or by newest when it is empty |
| `Posts.PostSorter.SortArticles` | assets/js/custom.js:71-85 | the articles become a permutation of themselves, in descending date order for "newest" and ascending order otherwise |
| `Posts.NewestThenOldest` | assets/js/custom.js:71-87 | with distinct dates, switching the control from "newest" to "oldest" shows the posts in exactly reverse order |
| `Reviews.Batch` | assets/js/custom.js:111 | the slice holds the reviews from the cursor on, at most 10 of them, and none once the cursor is at or past the end |
| `Reviews.AfterLoadsIsPrefix` | assets/js/custom.js:110-136 | k loads after a reset show exactly the first min(10k, length) reviews, in order |
| `Reviews.InViewportIsOverlap` | assets/js/custom.js:183-189 | the viewport test holds exactly when some row lies both in the element and in the window |
| `Reviews.ReviewLoader.constructor` | assets/js/custom.js:94-99 | the loader starts with no reviews, cursor 0, no cards, the button shown, no load pending and the request in flight |
| `Reviews.ReviewLoader.LoadReviews` | assets/js/custom.js:110-136 | the cards of the next batch are appended after the earlier cards. The cursor grows by exactly 10, unclamped. The button is hidden once the cursor reaches the length, and no hidden button is shown again |
| `Reviews.ReviewLoader.SortReviews` | assets/js/custom.js:139-147 | the reviews become a permutation of themselves, ordered descending for "newest" and ascending otherwise. The list is emptied and the cursor is 0 |
| `Reviews.ReviewLoader.SortControlChanged` | assets/js/custom.js:149-160 | once registered, a change shows exactly the first min(10, length) reviews of the newly sorted order, with the cursor at 10. Before that, nothing changes |
| `Reviews.ReviewLoader.FetchSucceeded` | assets/js/custom.js:162-170 | the reviews become the data sorted newest first, the first batch is rendered, the cursor is 10 and the sort listener is registered |
| `Reviews.ReviewLoader.FetchFailed` | assets/js/custom.js:171-174 | zero cards are rendered, the button is hidden, and the request is settled, so there is no retry |
| `Reviews.ReviewLoader.ScrollTick` | assets/js/custom.js:191-195 | a scroll does nothing while a load is pending or the cursor is at the end; otherwise it sets the guard exactly when the button overlaps the viewport. Nothing else changes |
| `Reviews.ReviewLoader.TimerFired` | assets/js/custom.js:196-199 | the timer performs one batch load and clears the guard |
| `Reviews.TwentyFiveReviews` | assets/js/custom.js:110-136 | for 25 reviews, 10, 20 and then 25 cards are shown. The button is hidden only after the third batch, with the cursor at 30 |
| `Reviews.LoadsAfterFetch` | assets/js/custom.js:110-136 | a successful request followed by any number of "load more" clicks shows exactly the batches described by k loads from a reset cursor, that is the first min(10 * (clicks + 1), length) reviews of the newest-first order |
| `Reviews.ResortAfterExhaustion` | assets/js/custom.js:133-158 | after all 25 are shown, a sort change shows 10 cards with 15 remaining, and the button stays hidden |
| `Reviews.ClickBeforeFetch` | assets/js/custom.js:132-135 | a click before the request settles hides the button, and it stays hidden after a later success |

## Left out

- Element lookups (`getElementById`, `querySelector`, `closest`), listener registration, `preventDefault` and console logging are left out. Each event is a method; a missing content block is the `None` argument of `ClickTrigger`.
- The set-up branches that disable a feature when its elements are missing are left out. The model assumes the modal, the posts section with its control, and the review list with its button and sort control all exist.
- `fetch` and `res.json()` are left out. The parsed array is the argument of `FetchSucceeded`, and any failure is `FetchFailed`. Both events require the request to be in flight, since a promise settles once. An exception thrown inside the success callback on malformed data, which the same `.catch` would handle, is not modelled: the data is a well-typed sequence.
- The 200ms `setTimeout` is split into `ScrollTick` and `TimerFired`. Time is not modelled. `TimerFired` requires the guard to be set, since only a scroll that set it starts a timer.
- JavaScript `Date` parsing, `NaN` comparisons and `toLocaleDateString` are left out. Dates are integer timestamps, and a card keeps the timestamp the formatted date is made from.
- The literal player markup and the unescaped `innerHTML` injection are left out. The player is the parameter `embed`.
- Ratings are modelled as integers. A non-integer or non-numeric JSON rating is not modelled.
- Sort stability and the order of equal dates are left out. `Array.prototype.sort` is modelled as one particular insertion sort, and only its permutation and order properties are stated.
- DOM node moves by `appendChild` are left out: the articles sequence simply becomes the sorted sequence. Non-article children of the section, and nested articles, are not modelled.
- The starting page state comes from the page's HTML, not from the script. The constructors assume the overlay starts closed, "load more" starts shown and the review list starts empty.
- Bounding-rectangle coordinates are integers, not floating point.
- The close control's listener is `Close` itself, and a click on "load more" is `LoadReviews` itself. The model does not stop a click on a hidden button.
