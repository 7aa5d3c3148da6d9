/**
 * The post sorter: the `article` elements of the ".posts" section, reordered
 * by their `data-date` attribute whenever the "sortPosts" control changes.
 */
module Posts {
  import opened DateSort

  /** A post element: its identity in the page and its `data-date`, as a timestamp. */
  datatype Article = Article(node: nat, date: int)

  function ArticleDate(a: Article): int {
    a.date
  }

  /** `sortDropdown.value || "newest"`: an empty control value falls back to "newest". */
  function InitialDirection(value: string): string {
    if value == "" then "newest" else value
  }

  class PostSorter {
    /** The articles of the section, in document order. */
    var articles: seq<Article>

    /** `enablePostSorting()`: the initial sort by the control's current value. */
    constructor (children: seq<Article>, controlValue: string)
      ensures articles == SortByDate(children, ArticleDate, InitialDirection(controlValue))
      ensures multiset(articles) == multiset(children)
      ensures Ordered(articles, ArticleDate, controlValue == "" || Newest(controlValue))
    {
      articles := SortByDate(children, ArticleDate, InitialDirection(controlValue));
      SortByDateIsSort(children, ArticleDate, InitialDirection(controlValue));
    }

    /**
     * `sortArticles(direction)`, also what a change of the control runs:
     * the section's articles become the sorted sequence.
     */
    method SortArticles(direction: string)
      modifies this
      ensures articles == SortByDate(old(articles), ArticleDate, direction)
      ensures multiset(articles) == multiset(old(articles))
      ensures Newest(direction) ==> Ordered(articles, ArticleDate, true)
      ensures !Newest(direction) ==> Ordered(articles, ArticleDate, false)
    {
      SortByDateIsSort(articles, ArticleDate, direction);
      articles := SortByDate(articles, ArticleDate, direction);
    }
  }

  /** Choosing "newest" and then "oldest" shows the posts in exactly reverse order. */
  method NewestThenOldest(children: seq<Article>) returns (newest: seq<Article>, oldest: seq<Article>)
    requires DistinctDates(children, ArticleDate)
    ensures oldest == Reverse(newest)
    ensures multiset(newest) == multiset(children)
  {
    var sorter := new PostSorter(children, "newest");
    newest := sorter.articles;
    sorter.SortArticles("oldest");
    oldest := sorter.articles;
    NewestThenOldestReverses(children, ArticleDate);
  }
}
