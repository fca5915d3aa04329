/**
 * The typewriter effect `typeIn(el, text)`: an interval that, on each tick,
 * sets the element's content to one more character of `text` and clears
 * itself once the whole text is shown. The tick period is not modelled.
 */
module Typewriter {

  /** `text.slice(0, k)`: the first k characters, clamped to the text. */
  function Revealed(text: string, k: nat): (r: string)
    ensures |r| == if k <= |text| then k else |text|
    ensures r <= text
  {
    if k <= |text| then text[..k] else text
  }

  /** Revealing more characters extends what was shown before. */
  lemma RevealedGrows(text: string, j: nat, k: nat)
    requires j <= k
    ensures Revealed(text, j) <= Revealed(text, k)
  {
  }

  /** Once k reaches the length of the text, the whole text is shown. */
  lemma RevealedComplete(text: string, k: nat)
    requires k >= |text|
    ensures Revealed(text, k) == text
  {
  }

  /** The state of one `typeIn` call: its element, counter and interval. */
  class Typer {
    const text: string
    /** The closure's counter `i`: the number of ticks so far. */
    var i: nat
    /** `el.textContent`. */
    var content: string
    /** Whether the interval is still live. */
    var running: bool

    /**
     * After i ticks the element shows the first i characters; the interval
     * runs until a tick has made i reach the text's length, which for an
     * empty text is the first tick.
     */
    ghost predicate Valid()
      reads this
    {
      && content == Revealed(text, i)
      && (running <==> i == 0 || i < |text|)
      && i <= if |text| == 0 then 1 else |text|
    }

    /** `typeIn(el, text)` on a freshly created, empty line. */
    constructor (text: string)
      ensures Valid()
      ensures this.text == text && i == 0 && content == "" && running
    {
      this.text := text;
      i := 0;
      content := "";
      running := true;
    }

    /** One firing of the interval; a cleared interval does not fire. */
    method Tick()
      requires Valid()
      modifies this
      ensures Valid()
      ensures old(running) ==> i == old(i) + 1 && content == Revealed(text, i)
      ensures old(running) ==> (running <==> i < |text|)
      ensures !old(running) ==> i == old(i) && content == old(content) && !running
      ensures content <= text && old(content) <= content
      ensures !running ==> content == text
    {
      if running {
        i := i + 1;
        content := Revealed(text, i);
        RevealedGrows(text, i - 1, i);
        if i >= |text| {
          RevealedComplete(text, i);
          running := false;
        }
      }
    }
  }

  /** An empty text stops after one tick, and a text of n > 0 characters after n. */
  method TickCounts(text: string) returns (ticks: nat)
    ensures ticks == if |text| == 0 then 1 else |text|
  {
    var t := new Typer(text);
    ticks := 0;
    while t.running
      invariant t.Valid() && t.text == text && t.i == ticks
      decreases (if |text| == 0 then 1 else |text|) - t.i
    {
      t.Tick();
      ticks := ticks + 1;
    }
  }
}
