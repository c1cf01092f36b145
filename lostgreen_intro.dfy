/**
 * The typing intro of the "Lost Green" page. Every span of the intro screen is
 * emptied and retyped one character per 50 ms interval tick. When a span runs
 * out of characters, its interval clears itself on the next tick. The screen's
 * wipe-out starts 400 ms after the longest span's typing time.
 *
 * Time is counted in interval ticks; the timers themselves are not modelled.
 */
module IntroTyping {

  /** Milliseconds per typed character. */
  const CharMs: nat := 50
  /** The pause between the end of typing and the wipe. */
  const BufferAfterTyping: nat := 400

  function MinNat(a: nat, b: nat): nat { if a <= b then a else b }

  /** What a span shows after k ticks: the first k characters of its text, or all of it. */
  function Typed(full: string, k: nat): (r: string)
    ensures |r| <= |full| && r <= full
    ensures k >= |full| ==> r == full
  {
    full[..MinNat(k, |full|)]
  }

  /** Typing only ever extends what is shown. */
  lemma TypedGrows(full: string, j: nat, k: nat)
    requires j <= k
    ensures Typed(full, j) <= Typed(full, k)
  {
  }

  /**
   * The span's interval callback run `ticks` times from an empty text: append
   * `fullText[i++]` while characters remain, else clear the interval. Returns the
   * text shown and whether the interval has been cleared.
   */
  method TypeSpan(fullText: string, ticks: nat) returns (text: string, cleared: bool)
    ensures text == Typed(fullText, ticks)
    ensures cleared <==> ticks > |fullText|
  {
    text := "";
    cleared := false;
    var i := 0;
    var tick := 0;
    while tick < ticks && !cleared
      invariant 0 <= tick <= ticks
      invariant i == MinNat(tick, |fullText|)
      invariant text == fullText[..i]
      invariant cleared <==> tick > |fullText|
      invariant cleared ==> tick == |fullText| + 1
      decreases ticks - tick
    {
      if i < |fullText| {
        text := text + [fullText[i]];
        i := i + 1;
      } else {
        cleared := true;
      }
      tick := tick + 1;
    }
  }

  /** The longest typing time among the spans, in ms: the largest `fullText.length * charMs`, or 0 for none. */
  function LongestTyping(texts: seq<string>): (d: nat)
    ensures forall k :: 0 <= k < |texts| ==> |texts[k]| * CharMs <= d
    ensures texts == [] ==> d == 0
    ensures texts != [] ==> exists k :: 0 <= k < |texts| && d == |texts[k]| * CharMs
  {
    if texts == [] then 0
    else
      var rest := LongestTyping(texts[..|texts| - 1]);
      var last := |texts[|texts| - 1]| * CharMs;
      if last > rest then last else rest
  }

  /**
   * The loop of `setupIntroAnimation` over the spans, keeping the running
   * `maxDuration`; returns it together with the delay of the wipe timer.
   */
  method SetupIntroAnimation(texts: seq<string>) returns (maxDuration: nat, wipeDelay: nat)
    ensures maxDuration == LongestTyping(texts)
    ensures wipeDelay == maxDuration + BufferAfterTyping
  {
    maxDuration := 0;
    for k := 0 to |texts|
      invariant maxDuration == LongestTyping(texts[..k])
    {
      assert texts[..k + 1][..k] == texts[..k];
      var duration := |texts[k]| * CharMs;
      if duration > maxDuration {
        maxDuration := duration;
      }
    }
    assert texts[..|texts|] == texts;
    wipeDelay := maxDuration + BufferAfterTyping;
  }

  /** When the wipe starts, every span shows its whole text and its interval has been cleared. */
  lemma TypingDoneBeforeWipe(texts: seq<string>, k: nat)
    requires k < |texts|
    ensures var ticks := (LongestTyping(texts) + BufferAfterTyping) / CharMs;
      Typed(texts[k], ticks) == texts[k] && ticks > |texts[k]|
  {
    var d := LongestTyping(texts);
    assert |texts[k]| * CharMs <= d;
    assert (d + BufferAfterTyping) / CharMs >= |texts[k]| + 8;
  }
}
