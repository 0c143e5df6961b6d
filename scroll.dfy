/** Scroll-driven details: each revealable element gets a transition delay that
    grows with its position and is capped, and the back-to-top button is shown
    once the page has scrolled far enough. */
module Scroll {
  import opened Dom

  const DelayStep: nat := 40
  const DelayCap: nat := 200
  const ToTopThreshold: real := 500.0

  /** `Math.min(i * 40, 200)`, in milliseconds, for the element at index `i`. */
  function RevealDelay(i: nat): (r: nat)
    ensures r <= DelayCap && r <= DelayStep * i
    ensures r == DelayCap || r == DelayStep * i
  {
    if i * DelayStep < DelayCap then i * DelayStep else DelayCap
  }

  /** The delay grows by 40 ms per element until it reaches the cap at the sixth
      element (index 5) and stays there. */
  lemma RevealDelayShape(i: nat, j: nat)
    ensures i <= j ==> RevealDelay(i) <= RevealDelay(j)
    ensures RevealDelay(i) == DelayCap <==> i >= 5
  {
  }

  /** The scroll offset the handler reads: `window.scrollY`, or the document's
      `scrollTop` when `scrollY` is zero. */
  function ScrollOffset(scrollY: real, scrollTop: real): (r: real)
    ensures scrollY != 0.0 ==> r == scrollY
    ensures scrollY == 0.0 ==> r == scrollTop
  {
    if scrollY != 0.0 then scrollY else scrollTop
  }

  /** Whether the back-to-top button carries its `visible` class at offset `y`. */
  /** The threshold is strict: the button stays hidden at exactly 500. */
  predicate ToTopVisible(y: real)
    ensures y <= ToTopThreshold ==> !ToTopVisible(y)
  {
    y > ToTopThreshold
  }

  /** Once the button is shown, scrolling further down never hides it. */
  lemma ToTopMonotone(y: real, z: real)
    requires y <= z
    ensures ToTopVisible(y) ==> ToTopVisible(z)
  {
  }

  /** The elements observed for reveal: their transition delays and their
      `data-reveal` attributes, set once at load. */
  class RevealList {
    const delays: array<nat>
    const revealAttr: array<Option<string>>

    constructor (n: nat)
      ensures fresh(delays) && fresh(revealAttr)
      ensures delays.Length == n && revealAttr.Length == n
    {
      delays := new nat[n];
      revealAttr := new Option<string>[n](_ => None);
    }

    /** The load-time loop: element `i` gets delay `RevealDelay(i)` and an empty
        `data-reveal` attribute. */
    method Prepare()
      requires delays.Length == revealAttr.Length
      modifies delays, revealAttr
      ensures forall i :: 0 <= i < delays.Length ==> delays[i] == RevealDelay(i)
      ensures forall i :: 0 <= i < revealAttr.Length ==> revealAttr[i] == Some("")
    {
      var i := 0;
      while i < delays.Length
        invariant 0 <= i <= delays.Length
        invariant forall k :: 0 <= k < i ==> delays[k] == RevealDelay(k)
        invariant forall k :: 0 <= k < i ==> revealAttr[k] == Some("")
      {
        delays[i] := RevealDelay(i);
        revealAttr[i] := Some("");
        i := i + 1;
      }
    }
  }

  /** The back-to-top button, absent from some pages. */
  class BackToTop {
    const present: bool
    var visible: bool

    constructor (isPresent: bool, initiallyVisible: bool)
      ensures present == isPresent && visible == initiallyVisible
    {
      present, visible := isPresent, initiallyVisible;
    }

    /** `onScroll`: the `visible` class follows the threshold test on the current offset. */
    method OnScroll(scrollY: real, scrollTop: real)
      modifies this
      ensures visible == if present then ToTopVisible(ScrollOffset(scrollY, scrollTop)) else old(visible)
    {
      var y := ScrollOffset(scrollY, scrollTop);
      if present {
        visible := ToTopVisible(y);
      }
    }
  }
}
