/**
 * The pin popups of the "Lost Green" map page. Each pin owns a popup card.
 * Hovering a pin opens its card, leaving closes it, and a click or touch on a pin
 * toggles its card, closing every other card first. A click anywhere else on the
 * document closes all cards. Opening a card places it next to its pin: to the
 * right if it fits, else to the left, else above. It is then clamped into the
 * viewport with a 12-pixel margin. One pin, `mashapaug`, gets a fixed upward
 * shift and no vertical clamp. A window resize re-positions the shown cards,
 * which leaves them hidden: positioning hides a card, and only opening shows it.
 *
 * Geometry is passed in as plain numbers: the pin's bounding rectangle, the
 * card's size and the viewport's size.
 */
module PinPopups {

  /** The safety margin kept between a card and the viewport's edges. */
  const Safe: real := 12.0
  /** The gap between a pin and its card. */
  const Gap: real := 15.0
  /** The upward shift of the `mashapaug` card. */
  const MashapaugOffset: real := -290.0
  const Mashapaug: string := "mashapaug"

  /** A pin's bounding client rectangle. */
  datatype Rect = Rect(left: real, right: real, top: real, height: real)

  /** Everything `positionCard` measures: the pin, its `data-pin` name, the card's size and the viewport. */
  datatype Layout = Layout(pin: Rect, pinName: string, width: real, height: real, viewWidth: real, viewHeight: real)

  /** The card's fixed position: its `left` and `top` style values. */
  datatype Position = Position(left: real, top: real)

  // ---------------------------------------------------------------------------
  // Placement
  // ---------------------------------------------------------------------------

  function Min(a: real, b: real): real { if a <= b then a else b }
  function Max(a: real, b: real): real { if a >= b then a else b }

  /** `clamp(v, min, max) = Math.min(Math.max(v, min), max)`. */
  function Clamp(v: real, lo: real, hi: real): (r: real)
    ensures r <= hi
    ensures lo <= hi ==> lo <= r
    ensures lo <= v <= hi ==> r == v
    ensures v < lo <= hi ==> r == lo
    ensures hi < lo ==> r == hi
    ensures r == v || r == lo || r == hi
    ensures Min(v, hi) <= r
  {
    Min(Max(v, lo), hi)
  }

  /** Where the card goes relative to its pin. */
  datatype Side = Right | Left | Above

  /** Right when the card fits between the pin and the viewport's right edge, else left when it fits there, else above. */
  function ChooseSide(l: Layout): (s: Side)
    ensures s == Right <==> l.pin.right + Gap + l.width <= l.viewWidth
    ensures s == Left <==> l.pin.right + Gap + l.width > l.viewWidth && l.pin.left - Gap - l.width > 0.0
  {
    if l.pin.right + Gap + l.width > l.viewWidth then
      if l.pin.left - Gap - l.width > 0.0 then Left else Above
    else Right
  }

  /** The card's top when it is vertically centred on the pin. */
  function CentredTop(l: Layout): real {
    l.pin.top + l.pin.height / 2.0 - l.height / 2.0
  }

  /** The card's position before clamping. It stays clear of the pin by the gap on the chosen side. */
  function Preferred(l: Layout): (p: Position)
    ensures ChooseSide(l) == Right ==> p.left == l.pin.right + Gap && p.left + l.width <= l.viewWidth
    ensures ChooseSide(l) == Left ==> p.left + l.width + Gap == l.pin.left && 0.0 < p.left
    ensures ChooseSide(l) != Above ==> p.top == CentredTop(l)
    ensures ChooseSide(l) == Above ==> p.left == l.pin.left && p.top + l.height + Gap == l.pin.top
  {
    match ChooseSide(l)
    case Right => Position(l.pin.right + Gap, CentredTop(l))
    case Left => Position(l.pin.left - l.width - Gap, CentredTop(l))
    case Above => Position(l.pin.left, l.pin.top - l.height - Gap)
  }

  /**
   * `positionCard(pin, popup)`: the preferred position, clamped horizontally into
   * the safe margins; then shifted up for `mashapaug`, or else clamped vertically.
   */
  function PositionCard(l: Layout): (p: Position)
    // Horizontally: the preferred left when it lies inside the margins, else the margin it crossed.
    ensures p.left <= l.viewWidth - l.width - Safe
    ensures l.width + 2.0 * Safe <= l.viewWidth ==> Safe <= p.left
    ensures Safe <= Preferred(l).left <= l.viewWidth - l.width - Safe ==> p.left == Preferred(l).left
    ensures Preferred(l).left < Safe <= l.viewWidth - l.width - Safe ==> p.left == Safe
    ensures Preferred(l).left > l.viewWidth - l.width - Safe || l.viewWidth - l.width - Safe < Safe ==>
              p.left == l.viewWidth - l.width - Safe
    // Vertically: `mashapaug` is shifted up and left unclamped; every other card is clamped likewise.
    ensures l.pinName == Mashapaug ==> p.top == Preferred(l).top + MashapaugOffset
    ensures l.pinName != Mashapaug ==> p.top <= l.viewHeight - l.height - Safe
    ensures l.pinName != Mashapaug && l.height + 2.0 * Safe <= l.viewHeight ==> Safe <= p.top
    ensures l.pinName != Mashapaug && Safe <= Preferred(l).top <= l.viewHeight - l.height - Safe ==>
              p.top == Preferred(l).top
    ensures l.pinName != Mashapaug && Preferred(l).top < Safe <= l.viewHeight - l.height - Safe ==> p.top == Safe
    ensures l.pinName != Mashapaug &&
              (Preferred(l).top > l.viewHeight - l.height - Safe || l.viewHeight - l.height - Safe < Safe) ==>
              p.top == l.viewHeight - l.height - Safe
  {
    var pref := Preferred(l);
    var customOffset := if l.pinName == Mashapaug then MashapaugOffset else 0.0;
    var left := Clamp(pref.left, Safe, l.viewWidth - l.width - Safe);
    var top := pref.top + customOffset;
    if customOffset == 0.0 then
      Position(left, Clamp(top, Safe, l.viewHeight - l.height - Safe))
    else
      Position(left, top)
  }

  /** A card of an ordinary pin whose preferred position lies inside the safe margins is not moved at all. */
  lemma InsideMarginsKept(l: Layout)
    requires l.pinName != Mashapaug
    requires Safe <= Preferred(l).left <= l.viewWidth - l.width - Safe
    requires Safe <= Preferred(l).top <= l.viewHeight - l.height - Safe
    ensures PositionCard(l) == Preferred(l)
  {
  }

  /** A card placed to the right of its pin stays right of the pin after the horizontal clamp. */
  lemma RightCardClearOfPin(l: Layout)
    requires ChooseSide(l) == Right
    ensures PositionCard(l).left >= l.pin.right + Gap - Safe
  {
    var pref := Preferred(l);
    assert Min(pref.left, l.viewWidth - l.width - Safe) >= l.pin.right + Gap - Safe;
  }

  /** A card placed to the left of its pin stays left of the pin after the horizontal clamp. */
  lemma LeftCardClearOfPin(l: Layout)
    requires ChooseSide(l) == Left
    ensures PositionCard(l).left + l.width < l.pin.left - Gap + Safe
  {
    var pref := Preferred(l);
    assert Max(pref.left, Safe) < pref.left + Safe;
  }

  // ---------------------------------------------------------------------------
  // The cards on the page
  // ---------------------------------------------------------------------------

  /** The page's popup cards, indexed like the pins that own them. */
  class MapCards {
    /** Card i is shown: opacity 1 and visibility `visible` (rather than opacity 0 and `hidden`). */
    var shown: seq<bool>
    /** The last `left`/`top` written into card i's style. */
    var position: seq<Position>

    ghost predicate Valid()
      reads this
    {
      |shown| == |position|
    }

    /** No card is shown. */
    ghost predicate AllClosed()
      reads this
    {
      forall j :: 0 <= j < |shown| ==> !shown[j]
    }

    /** n cards, all hidden, all at the given starting position. */
    constructor (n: nat, start: Position)
      ensures Valid() && |shown| == n && AllClosed()
      ensures position == seq(n, _ => start)
    {
      shown := seq(n, _ => false);
      position := seq(n, _ => start);
    }

    /** `openCard(pin, popup)`: position card i, then show it. */
    method OpenCard(i: nat, l: Layout)
      requires Valid() && i < |shown|
      modifies this
      ensures Valid()
      ensures shown == old(shown)[i := true]
      ensures position == old(position)[i := PositionCard(l)]
    {
      position := position[i := PositionCard(l)];
      shown := shown[i := true];
    }

    /** `closeCard(popup)`: hide card i; closing a hidden card changes nothing. */
    method CloseCard(i: nat)
      requires Valid() && i < |shown|
      modifies this
      ensures Valid()
      ensures shown == old(shown)[i := false]
      ensures position == old(position)
      ensures !old(shown[i]) ==> shown == old(shown)
    {
      shown := shown[i := false];
    }

    /** `toggleCard(pin, popup)`: hide card i if shown; otherwise hide every other card and open card i. */
    method ToggleCard(i: nat, l: Layout)
      requires Valid() && i < |shown|
      modifies this
      ensures Valid() && |shown| == old(|shown|)
      ensures old(shown[i]) ==> shown == old(shown)[i := false] && position == old(position)
      ensures !old(shown[i]) ==>
        && (forall j :: 0 <= j < |shown| ==> shown[j] == (j == i))
        && position == old(position)[i := PositionCard(l)]
    {
      if shown[i] {
        CloseCard(i);
      } else {
        for j := 0 to |shown|
          invariant Valid() && |shown| == old(|shown|) && position == old(position)
          invariant forall k :: 0 <= k < j && k != i ==> !shown[k]
          invariant forall k :: j <= k < |shown| ==> shown[k] == old(shown[k])
        {
          if j != i {
            CloseCard(j);
          }
        }
        OpenCard(i, l);
      }
    }

    /** The document's click listener: close every card. */
    method CloseAll()
      requires Valid()
      modifies this
      ensures Valid() && |shown| == old(|shown|) && AllClosed()
      ensures position == old(position)
    {
      for j := 0 to |shown|
        invariant Valid() && |shown| == old(|shown|) && position == old(position)
        invariant forall k :: 0 <= k < j ==> !shown[k]
      {
        CloseCard(j);
      }
    }

    /**
     * The window's resize listener: every shown card is positioned again. Since
     * `positionCard` hides the card while measuring it and only `openCard` shows it
     * again, a resize leaves every card hidden, the shown ones at their new positions.
     */
    method Resize(layouts: seq<Layout>)
      requires Valid() && |layouts| == |shown|
      modifies this
      ensures Valid() && |shown| == old(|shown|) && AllClosed()
      ensures forall k :: 0 <= k < |shown| ==>
        position[k] == (if old(shown[k]) then PositionCard(layouts[k]) else old(position[k]))
    {
      for k := 0 to |shown|
        invariant Valid() && |shown| == old(|shown|)
        invariant forall j :: 0 <= j < k ==> !shown[j]
        invariant forall j :: 0 <= j < k ==>
          position[j] == (if old(shown[j]) then PositionCard(layouts[j]) else old(position[j]))
        invariant forall j :: k <= j < |shown| ==> shown[j] == old(shown[j]) && position[j] == old(position[j])
      {
        if shown[k] {
          position := position[k := PositionCard(layouts[k])];
          shown := shown[k := false];
        }
      }
    }

    /** One mouse or touch event on the map, dispatched as the page's listeners do. */
    method Handle(e: PinEvent, l: Layout)
      requires Valid() && e.InRange(|shown|)
      modifies this
      ensures Valid() && |shown| == old(|shown|)
      ensures e.DocumentClick? ==> AllClosed()
      ensures e.Tap? && !old(shown[e.pin]) ==> forall j :: 0 <= j < |shown| ==> shown[j] == (j == e.pin)
      ensures e.Tap? && old(shown[e.pin]) ==> shown == old(shown)[e.pin := false]
      ensures e.Enter? ==> shown == old(shown)[e.pin := true]
      ensures e.Leave? ==> shown == old(shown)[e.pin := false]
      ensures e.Enter? || (e.Tap? && !old(shown[e.pin])) ==> position == old(position)[e.pin := PositionCard(l)]
      ensures e.Leave? || (e.Tap? && old(shown[e.pin])) || e.DocumentClick? ==> position == old(position)
    {
      match e
      case Enter(i) => OpenCard(i, l);
      case Leave(i) => CloseCard(i);
      case Tap(i) => ToggleCard(i, l);
      case DocumentClick => CloseAll();
    }
  }

  /**
   * The events the page listens to: `mouseenter`/`mouseleave` on a pin, a `click`
   * or `touchstart` on a pin (which stops propagation, so the document does not
   * see it), and a click anywhere else.
   */
  datatype PinEvent = Enter(pin: nat) | Leave(pin: nat) | Tap(pin: nat) | DocumentClick
  {
    predicate InRange(n: nat) {
      !DocumentClick? ==> pin < n
    }
  }
}
