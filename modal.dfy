/**
 * The modal controller: the overlay's body markup, the overlay's `show`
 * class and the page body's `modal-open` class, and the events that change them.
 */
module Modal {
  import opened Options
  import YouTube

  class ModalController {
    /** `modalBody.innerHTML` */
    var body: string
    /** `modal.classList` contains "show" */
    var show: bool
    /** `document.body.classList` contains "modal-open" */
    var pageOpen: bool

    /** Both class marks are always added and removed together. */
    ghost predicate Valid()
      reads this
    {
      show == pageOpen
    }

    /** The page starts with the overlay hidden and whatever markup its body holds. */
    constructor (initialBody: string)
      ensures Valid()
      ensures body == initialBody && !show && !pageOpen
    {
      body := initialBody;
      show := false;
      pageOpen := false;
    }

    /** `openModalWithContent(html)` */
    method Open(html: string)
      modifies this
      ensures Valid()
      ensures body == html && show && pageOpen
    {
      body := html;
      show := true;
      pageOpen := true;
    }

    /** `closeModal()`; the close control calls it directly. */
    method Close()
      modifies this
      ensures Valid()
      ensures body == "" && !show && !pageOpen
    {
      show := false;
      body := "";
      pageOpen := false;
    }

    /**
     * A click on an ".openModal" trigger. `content` is the innerHTML of the
     * ".modalContent" block in the trigger's enclosing article or footer,
     * or None when there is none, in which case nothing changes.
     */
    method ClickTrigger(content: Option<string>, embed: string -> string)
      requires Valid()
      modifies this
      ensures Valid()
      ensures content.Some? ==> body == YouTube.Rewrite(content.value, embed) && show && pageOpen
      ensures content.None? ==> body == old(body) && show == old(show) && pageOpen == old(pageOpen)
    {
      if content.Some? {
        var html := YouTube.Rewrite(content.value, embed);
        Open(html);
      }
    }

    /** A keydown anywhere: Escape closes the overlay when it is shown, anything else is ignored. */
    method KeyDown(key: string)
      requires Valid()
      modifies this
      ensures Valid()
      ensures key == "Escape" && old(show) ==> body == ""
      ensures key == "Escape" ==> !show && !pageOpen
      ensures !(key == "Escape" && old(show)) ==>
                body == old(body) && show == old(show) && pageOpen == old(pageOpen)
    {
      if key == "Escape" && show {
        Close();
      }
    }

    /** A click inside the overlay; only a click on the backdrop itself closes it. */
    method ClickOverlay(onBackdrop: bool)
      requires Valid()
      modifies this
      ensures Valid()
      ensures onBackdrop ==> body == "" && !show && !pageOpen
      ensures !onBackdrop ==> body == old(body) && show == old(show) && pageOpen == old(pageOpen)
    {
      if onBackdrop {
        Close();
      }
    }
  }

  /**
   * Opening with content that holds no placeholder shows that content
   * unchanged, and closing repeatedly leaves the overlay closed and empty.
   */
  method OpenThenCloseTwice(content: string, embed: string -> string)
    returns (shown: string, afterFirst: string, afterSecond: string, openAtEnd: bool)
    requires forall k :: 0 <= k < |content| ==> YouTube.MatchAt(content[k..]) == None
    ensures shown == content
    ensures afterFirst == "" && afterSecond == "" && !openAtEnd
  {
    var m := new ModalController("");
    m.ClickTrigger(Some(content), embed);
    YouTube.NoPlaceholderKept(content, embed);
    shown := m.body;
    m.Close();
    afterFirst := m.body;
    m.Close();
    afterSecond := m.body;
    openAtEnd := m.show || m.pageOpen;
  }
}
