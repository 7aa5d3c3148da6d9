/**
 * The review loader: the fetched reviews, the pagination cursor, the
 * rendered cards, the "load more" control's visibility and the scroll
 * guard, with one method per event that changes them.
 */
module Reviews {
  import opened DateSort
  import Stars

  /** A record of the review data, its `Date` as a timestamp. */
  datatype Review = Review(name: string, date: int, title: string, rating: int, text: string)

  /**
   * A rendered ".review-card": the fields it shows, the date kept as the
   * timestamp it is formatted from, and the star markup.
   */
  datatype Card = Card(name: string, date: int, title: string, stars: string, text: string)

  /** The bounding rectangle's vertical extent, in viewport coordinates. */
  datatype Rect = Rect(top: int, bottom: int)

  const BatchSize: nat := 10

  function ReviewDate(r: Review): int {
    r.date
  }

  function Min(a: int, b: int): int {
    if a <= b then a else b
  }

  /** The card template of `loadReviews`, filled from a review and its star markup. */
  function RenderCard(r: Review, stars: string): Card {
    Card(r.name, r.date, r.title, stars, r.text)
  }

  /** The card rendered for a review. */
  function CardOf(r: Review): Card {
    RenderCard(r, Stars.StarsHtml(r.rating))
  }

  function Cards(rs: seq<Review>): (cs: seq<Card>)
    ensures |cs| == |rs|
  {
    seq(|rs|, i requires 0 <= i < |rs| => CardOf(rs[i]))
  }

  lemma CardsAppend(a: seq<Review>, b: seq<Review>)
    ensures Cards(a + b) == Cards(a) + Cards(b)
  {
  }

  /**
   * `reviews.slice(cursor, cursor + batchSize)`: JavaScript clamps both ends
   * to the length, so a cursor at or past the end gives an empty batch.
   */
  function Batch(s: seq<Review>, cursor: nat): (b: seq<Review>)
    ensures |b| == Min(BatchSize, |s| - Min(cursor, |s|))
    ensures forall k :: 0 <= k < |b| ==> b[k] == s[cursor + k]
  {
    s[Min(cursor, |s|)..Min(cursor + BatchSize, |s|)]
  }

  /** A prefix up to the cursor, followed by the next batch, is the prefix up to the next cursor. */
  lemma PrefixThenBatch(s: seq<Review>, cursor: nat)
    ensures s[..Min(cursor, |s|)] + Batch(s, cursor) == s[..Min(cursor + BatchSize, |s|)]
  {
  }

  /** The reviews rendered by `k` calls of `loadReviews` after a reset of the cursor. */
  function AfterLoads(s: seq<Review>, k: nat): seq<Review> {
    if k == 0 then [] else AfterLoads(s, k - 1) + Batch(s, (k - 1) * BatchSize)
  }

  /** `k` loads from a reset cursor show exactly the first min(10k, |s|) reviews, in order. */
  lemma {:induction false} AfterLoadsIsPrefix(s: seq<Review>, k: nat)
    ensures AfterLoads(s, k) == s[..Min(k * BatchSize, |s|)]
  {
    if k > 0 {
      AfterLoadsIsPrefix(s, k - 1);
      PrefixThenBatch(s, (k - 1) * BatchSize);
    }
  }

  /** `isElementInViewport`: the rectangle overlaps the window vertically. */
  predicate InViewport(rect: Rect, innerHeight: int) {
    rect.top <= innerHeight && rect.bottom >= 0
  }

  /** Row `y` of the viewport lies both in the element and in the window. */
  predicate SharedRow(rect: Rect, innerHeight: int, y: int) {
    rect.top <= y <= rect.bottom && 0 <= y <= innerHeight
  }

  /** The viewport test holds exactly when some row lies both in the element and in the window. */
  lemma InViewportIsOverlap(rect: Rect, innerHeight: int)
    requires rect.top <= rect.bottom && 0 <= innerHeight
    ensures InViewport(rect, innerHeight) <==> exists y :: SharedRow(rect, innerHeight, y)
  {
    if InViewport(rect, innerHeight) {
      var y := if rect.top < 0 then 0 else rect.top;
      assert SharedRow(rect, innerHeight, y);
    }
  }

  class ReviewLoader {
    /** `reviews`: the review data, in its current order. */
    var reviews: seq<Review>
    /** `reviewIndex`: the cursor, never clamped to the length. */
    var reviewIndex: nat
    /** The cards appended to "review-list". */
    var rendered: seq<Card>
    /** `loadMoreBtn.style.display == "none"` */
    var buttonHidden: bool
    /** `isLoading`: a scroll-triggered load is waiting for its timer. */
    var isLoading: bool
    /** The change listener of the "sortReviews" control is registered. */
    var sortEnabled: bool
    /** The request for the review data has not settled yet. */
    var fetchPending: bool

    /** While the request is in flight there is nothing to show or sort. */
    ghost predicate Quiet()
      reads this
    {
      fetchPending ==> reviews == [] && rendered == [] && !sortEnabled
    }

    /**
     * The cards shown are always the cards of the current order up to the
     * cursor, and the cursor moves in whole batches.
     */
    ghost predicate Valid()
      reads this
    {
      Quiet() &&
      reviewIndex % BatchSize == 0 &&
      rendered == Cards(reviews[..Min(reviewIndex, |reviews|)])
    }

    /** The page's state when the script starts `fetchReviews()`. */
    constructor ()
      ensures Valid()
      ensures reviews == [] && reviewIndex == 0 && rendered == []
      ensures !buttonHidden && !isLoading && !sortEnabled && fetchPending
    {
      reviews := [];
      reviewIndex := 0;
      rendered := [];
      buttonHidden := false;
      isLoading := false;
      sortEnabled := false;
      fetchPending := true;
    }

    /**
     * `loadReviews()`, also what a click on "load more" runs: append the
     * cards of the next batch, advance the cursor by a whole batch, and hide
     * the control once the cursor reaches the length.
     */
    method LoadReviews()
      requires Valid()
      modifies this
      ensures Valid()
      ensures rendered == old(rendered) + Cards(Batch(reviews, old(reviewIndex)))
      ensures reviewIndex == old(reviewIndex) + BatchSize
      ensures buttonHidden == (old(buttonHidden) || reviewIndex >= |reviews|)
      ensures reviews == old(reviews) && isLoading == old(isLoading)
      ensures sortEnabled == old(sortEnabled) && fetchPending == old(fetchPending)
    {
      var next := Batch(reviews, reviewIndex);
      for i := 0 to |next|
        invariant rendered == old(rendered) + Cards(next[..i])
        invariant reviews == old(reviews) && reviewIndex == old(reviewIndex)
        invariant buttonHidden == old(buttonHidden) && isLoading == old(isLoading)
        invariant sortEnabled == old(sortEnabled) && fetchPending == old(fetchPending)
      {
        var review := next[i];
        var stars := Stars.CreateStarRating(review.rating);
        CardsAppend(next[..i], [review]);
        assert next[..i + 1] == next[..i] + [review];
        rendered := rendered + [RenderCard(review, stars)];
      }
      assert next[..|next|] == next;
      CardsAppend(reviews[..Min(reviewIndex, |reviews|)], next);
      PrefixThenBatch(reviews, reviewIndex);
      reviewIndex := reviewIndex + BatchSize;
      if reviewIndex >= |reviews| {
        buttonHidden := true;
      }
    }

    /**
     * `sortReviews(direction)`: reorder the reviews by date, descending
     * exactly for "newest", clear the list and reset the cursor.
     */
    method SortReviews(direction: string)
      requires Quiet()
      modifies this
      ensures Valid()
      ensures reviews == SortByDate(old(reviews), ReviewDate, direction)
      ensures multiset(reviews) == multiset(old(reviews)) && |reviews| == |old(reviews)|
      ensures Newest(direction) ==> Ordered(reviews, ReviewDate, true)
      ensures !Newest(direction) ==> Ordered(reviews, ReviewDate, false)
      ensures rendered == [] && reviewIndex == 0
      ensures buttonHidden == old(buttonHidden) && isLoading == old(isLoading)
      ensures sortEnabled == old(sortEnabled) && fetchPending == old(fetchPending)
    {
      SortByDateIsSort(reviews, ReviewDate, direction);
      reviews := SortByDate(reviews, ReviewDate, direction);
      rendered := [];
      reviewIndex := 0;
    }

    /**
     * A change of the "sortReviews" control, once its listener is
     * registered: re-sort, clear, reset the cursor and render the first batch.
     */
    method SortControlChanged(value: string)
      requires Valid()
      modifies this
      ensures Valid()
      ensures !old(sortEnabled) ==>
                reviews == old(reviews) && reviewIndex == old(reviewIndex) && rendered == old(rendered)
                && buttonHidden == old(buttonHidden)
      ensures old(sortEnabled) ==> reviews == SortByDate(old(reviews), ReviewDate, value)
      ensures old(sortEnabled) ==> multiset(reviews) == multiset(old(reviews)) && |reviews| == |old(reviews)|
      ensures old(sortEnabled) ==> Ordered(reviews, ReviewDate, Newest(value))
      ensures old(sortEnabled) ==> rendered == Cards(reviews[..Min(BatchSize, |reviews|)])
      ensures old(sortEnabled) ==> reviewIndex == BatchSize
      ensures old(sortEnabled) ==> buttonHidden == (old(buttonHidden) || |reviews| <= BatchSize)
      ensures isLoading == old(isLoading) && sortEnabled == old(sortEnabled)
      ensures fetchPending == old(fetchPending)
    {
      if sortEnabled {
        SortReviews(value);
        reviewIndex := 0;
        rendered := [];
        LoadReviews();
      }
    }

    /**
     * The request succeeded with `data`: take it as the reviews, sort them
     * newest first, render the first batch and register the sort listener.
     */
    method FetchSucceeded(data: seq<Review>)
      requires Valid() && fetchPending
      modifies this
      ensures Valid()
      ensures reviews == SortByDate(data, ReviewDate, "newest")
      ensures multiset(reviews) == multiset(data) && |reviews| == |data|
      ensures Ordered(reviews, ReviewDate, true)
      ensures rendered == Cards(reviews[..Min(BatchSize, |data|)])
      ensures reviewIndex == BatchSize
      ensures buttonHidden == (old(buttonHidden) || |data| <= BatchSize)
      ensures isLoading == old(isLoading) && sortEnabled && !fetchPending
    {
      fetchPending := false;
      reviews := data;
      SortReviews("newest");
      LoadReviews();
      sortEnabled := true;
    }

    /** The request or its JSON parsing failed: hide "load more"; no retry. */
    method FetchFailed()
      requires Valid() && fetchPending
      modifies this
      ensures Valid()
      ensures rendered == [] && reviews == [] && buttonHidden
      ensures reviewIndex == old(reviewIndex) && isLoading == old(isLoading)
      ensures !sortEnabled && !fetchPending
    {
      fetchPending := false;
      buttonHidden := true;
    }

    /**
     * A scroll event: ignored while a load is pending or nothing remains;
     * otherwise, if the control overlaps the viewport, the guard is set and
     * the timer started.
     */
    method ScrollTick(button: Rect, innerHeight: int)
      requires Valid()
      modifies this
      ensures Valid()
      ensures old(isLoading) || reviewIndex >= |reviews| ==> isLoading == old(isLoading)
      ensures !old(isLoading) && reviewIndex < |reviews| ==> isLoading == InViewport(button, innerHeight)
      ensures reviews == old(reviews) && reviewIndex == old(reviewIndex) && rendered == old(rendered)
      ensures buttonHidden == old(buttonHidden) && sortEnabled == old(sortEnabled)
      ensures fetchPending == old(fetchPending)
    {
      if isLoading || reviewIndex >= |reviews| {
        return;
      }
      if InViewport(button, innerHeight) {
        isLoading := true;
      }
    }

    /** The 200ms timer started by a scroll event fires: load one batch and clear the guard. */
    method TimerFired()
      requires Valid() && isLoading
      modifies this
      ensures Valid()
      ensures rendered == old(rendered) + Cards(Batch(reviews, old(reviewIndex)))
      ensures reviewIndex == old(reviewIndex) + BatchSize
      ensures buttonHidden == (old(buttonHidden) || reviewIndex >= |reviews|)
      ensures reviews == old(reviews) && !isLoading
      ensures sortEnabled == old(sortEnabled) && fetchPending == old(fetchPending)
    {
      LoadReviews();
      isLoading := false;
    }
  }

  /**
   * Twenty-five reviews: the first render shows 10 cards, one "load more"
   * click 20, a second all 25 and hides the control, with the cursor at 30.
   */
  method TwentyFiveReviews(data: seq<Review>)
    returns (first: nat, second: nat, third: nat, hiddenBefore: bool, hiddenAfter: bool, cursor: nat)
    requires |data| == 25
    ensures first == 10 && second == 20 && third == 25
    ensures !hiddenBefore && hiddenAfter && cursor == 30
  {
    var loader := new ReviewLoader();
    loader.FetchSucceeded(data);
    first := |loader.rendered|;
    loader.LoadReviews();
    second := |loader.rendered|;
    hiddenBefore := loader.buttonHidden;
    loader.LoadReviews();
    third := |loader.rendered|;
    hiddenAfter := loader.buttonHidden;
    cursor := loader.reviewIndex;
  }

  /**
   * Re-sorting after the list was exhausted resets the cursor and shows one
   * batch, but nothing shows "load more" again: it stays hidden although
   * reviews remain beyond the cursor.
   */
  method ResortAfterExhaustion(data: seq<Review>, direction: string)
    returns (shown: nat, remaining: nat, hidden: bool)
    requires |data| == 25
    ensures shown == 10 && remaining == 15 && hidden
  {
    var loader := new ReviewLoader();
    loader.FetchSucceeded(data);
    loader.LoadReviews();
    loader.LoadReviews();
    loader.SortControlChanged(direction);
    shown := |loader.rendered|;
    remaining := |loader.reviews| - loader.reviewIndex;
    hidden := loader.buttonHidden;
  }

  /**
   * A click on "load more" before the request settles finds no reviews,
   * advances the cursor and hides the control; the later success renders the
   * first batch but the control stays hidden.
   */
  method ClickBeforeFetch(data: seq<Review>) returns (shown: nat, hidden: bool)
    requires |data| == 25
    ensures shown == 10 && hidden
  {
    var loader := new ReviewLoader();
    loader.LoadReviews();
    loader.FetchSucceeded(data);
    shown := |loader.rendered|;
    hidden := loader.buttonHidden;
  }

  /**
   * A successful request followed by `clicks` presses of "load more" shows
   * exactly the batches that `AfterLoads` describes, that is the first
   * min(10 * (clicks + 1), length) reviews of the newest-first order.
   */
  method LoadsAfterFetch(data: seq<Review>, clicks: nat) returns (shown: seq<Card>, order: seq<Review>)
    ensures order == SortByDate(data, ReviewDate, "newest")
    ensures shown == Cards(AfterLoads(order, clicks + 1))
    ensures shown == Cards(order[..Min((clicks + 1) * BatchSize, |order|)])
  {
    var loader := new ReviewLoader();
    loader.FetchSucceeded(data);
    assert AfterLoads(loader.reviews, 1) == Batch(loader.reviews, 0);
    var i := 0;
    while i < clicks
      invariant 0 <= i <= clicks
      invariant loader.Valid() && loader.reviewIndex == (i + 1) * BatchSize
      invariant loader.reviews == SortByDate(data, ReviewDate, "newest")
      invariant loader.rendered == Cards(AfterLoads(loader.reviews, i + 1))
    {
      CardsAppend(AfterLoads(loader.reviews, i + 1), Batch(loader.reviews, (i + 1) * BatchSize));
      loader.LoadReviews();
      i := i + 1;
    }
    shown, order := loader.rendered, loader.reviews;
    AfterLoadsIsPrefix(order, clicks + 1);
  }
}
