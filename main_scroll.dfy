/**
 * The scroll page of the exhibition's main site. Every scroll event records the
 * scroll offset in the `--scroll` CSS variable and checks whether the reader is
 * within 10 pixels of the bottom. At the bottom, a green overlay and the
 * back-to-top control appear, and the navigation modal opens by itself, but only
 * once. The back-to-top click re-arms that once-flag. The modal's button opens it
 * and a click on its backdrop closes it. Of the green links, the first five have
 * real targets and get no click handler.
 */
module ScrollPage {

  /** The distance from the bottom that still counts as "at the bottom". */
  const BottomThreshold: real := 10.0
  /** The green links with real targets come first; this many get no handler. */
  const LinkedGreens: nat := 5

  /** `scrollTop + clientHeight >= scrollHeight - 10`. */
  predicate AtBottom(scrollY: real, innerHeight: real, scrollHeight: real) {
    scrollY + innerHeight >= scrollHeight - BottomThreshold
  }

  /** Scrolling further down, or a taller window, keeps the reader at the bottom. */
  lemma AtBottomMonotone(y1: real, y2: real, h1: real, h2: real, scrollHeight: real)
    requires y1 <= y2 && h1 <= h2 && AtBottom(y1, h1, scrollHeight)
    ensures AtBottom(y2, h2, scrollHeight)
  {
  }

  /** The page's state that the scripts change. */
  class Page {
    /** The global `hasShownModal` once-flag. */
    var hasShownModal: bool
    /** `greenOverlay` has the `active` class. */
    var overlayActive: bool
    /** The back-to-top button's container has the `visible` class. */
    var backToTopVisible: bool
    /** The modal's `display` is `block` rather than `none`. */
    var modalOpen: bool
    /** `navBox` has the `visible` class. */
    var navBoxVisible: bool
    /** The `--scroll` CSS variable, in pixels. */
    var scrollVar: int

    /** The overlay and the back-to-top control come and go together, and so do the modal and the navigation box. */
    ghost predicate Valid()
      reads this
    {
      overlayActive == backToTopVisible && modalOpen == navBoxVisible
    }

    /** The page as loaded, before the first scroll handler runs. */
    constructor ()
      ensures Valid() && !hasShownModal && !overlayActive && !modalOpen && scrollVar == 0
    {
      hasShownModal, overlayActive, backToTopVisible := false, false, false;
      modalOpen, navBoxVisible, scrollVar := false, false, 0;
    }

    /** `handleScroll()`; `autoOpened` tells whether this call opened the modal by itself. */
    method HandleScroll(scrollY: real, innerHeight: real, scrollHeight: real) returns (autoOpened: bool)
      requires Valid()
      modifies this
      ensures Valid()
      ensures scrollVar == scrollY.Floor
      ensures overlayActive == AtBottom(scrollY, innerHeight, scrollHeight)
      ensures autoOpened <==> AtBottom(scrollY, innerHeight, scrollHeight) && !old(hasShownModal)
      ensures autoOpened ==> modalOpen && hasShownModal
      ensures !autoOpened ==> modalOpen == old(modalOpen) && hasShownModal == old(hasShownModal)
    {
      scrollVar := scrollY.Floor;
      var scrolledToBottom := scrollY + innerHeight >= scrollHeight - BottomThreshold;
      autoOpened := false;
      if scrolledToBottom {
        overlayActive := true;
        backToTopVisible := true;
        if !hasShownModal {
          modalOpen := true;
          navBoxVisible := true;
          hasShownModal := true;
          autoOpened := true;
        }
      } else {
        overlayActive := false;
        backToTopVisible := false;
      }
    }

    /** The back-to-top click: re-arm the once-flag (the smooth scroll it starts arrives as later scroll events). */
    method BackToTopClick()
      requires Valid()
      modifies this
      ensures Valid() && !hasShownModal
      ensures overlayActive == old(overlayActive) && modalOpen == old(modalOpen) && scrollVar == old(scrollVar)
    {
      hasShownModal := false;
    }

    /** The modal button: show the modal and the navigation box. */
    method ModalButtonClick()
      requires Valid()
      modifies this
      ensures Valid() && modalOpen && navBoxVisible
      ensures hasShownModal == old(hasShownModal) && overlayActive == old(overlayActive) && scrollVar == old(scrollVar)
    {
      modalOpen := true;
      navBoxVisible := true;
    }

    /** A click inside the modal: only one whose target is the backdrop itself closes it. */
    method ModalClick(onBackdrop: bool)
      requires Valid()
      modifies this
      ensures Valid()
      ensures modalOpen == (old(modalOpen) && !onBackdrop) && navBoxVisible == modalOpen
      ensures hasShownModal == old(hasShownModal) && overlayActive == old(overlayActive) && scrollVar == old(scrollVar)
    {
      if onBackdrop {
        modalOpen := false;
        navBoxVisible := false;
      }
    }
  }

  /** The events the page reacts to. */
  datatype PageEvent =
    | Scroll(scrollY: real, innerHeight: real, scrollHeight: real)
    | BackToTop
    | ModalButton
    | ModalClick(onBackdrop: bool)

  /** How many back-to-top clicks a sequence of events holds. */
  function Resets(events: seq<PageEvent>): (n: nat)
    ensures n <= |events|
  {
    if events == [] then 0
    else Resets(events[..|events| - 1]) + (if events[|events| - 1].BackToTop? then 1 else 0)
  }

  /**
   * The page from load through `events`: counts how often the modal opened by
   * itself. It does so at most once, plus once more per back-to-top click.
   */
  method ReplayEvents(events: seq<PageEvent>) returns (autoOpens: nat)
    ensures autoOpens <= Resets(events) + 1
  {
    var page := new Page();
    autoOpens := 0;
    for k := 0 to |events|
      invariant page.Valid()
      invariant autoOpens <= Resets(events[..k]) + (if page.hasShownModal then 1 else 0)
    {
      assert events[..k + 1][..k] == events[..k];
      match events[k]
      case Scroll(y, h, sh) =>
        var autoOpened := page.HandleScroll(y, h, sh);
        if autoOpened {
          autoOpens := autoOpens + 1;
        }
      case BackToTop => page.BackToTopClick();
      case ModalButton => page.ModalButtonClick();
      case ModalClick(b) => page.ModalClick(b);
    }
    assert events[..|events|] == events;
  }

  /** `setupGreenLinks()`: which of `count` green links, by index, get a click handler. */
  method SetupGreenLinks(count: nat) returns (handled: seq<bool>)
    ensures |handled| == count
    ensures forall k :: 0 <= k < count ==> (handled[k] <==> k >= LinkedGreens)
  {
    handled := [];
    for index := 0 to count
      invariant |handled| == index
      invariant forall k :: 0 <= k < index ==> (handled[k] <==> k >= LinkedGreens)
    {
      if index == 0 || index == 1 || index == 2 || index == 3 || index == 4 {
        handled := handled + [false];
      } else {
        handled := handled + [true];
      }
    }
  }
}
