/**
 * The QR scanner handle a screen keeps in its module-level `currentQRScanner`
 * (src/components/entree.js, src/components/sortie.js). `initQRScanner` either starts a
 * camera session and returns its handle or returns null; `stopQRScanner` ends the session of
 * the handle it is given. Handles are opaque: a natural number names a session.
 */
module Scanner {
  import opened JsValues

  type Handle = nat

  /** The sessions a value of `currentQRScanner` stands for. */
  function Held(h: Option<Handle>): (s: set<Handle>)
    ensures |s| <= 1
    ensures h.None? <==> s == {}
    ensures forall x :: x in s <==> h == Some(x)
  {
    if h.Some? then {h.value} else {}
  }

  class ScannerSlot {
    /** `currentQRScanner`. */
    var current: Option<Handle>
    /** The camera sessions started through this slot and not yet stopped. */
    ghost var running: set<Handle>

    /** Every running session is the one the slot holds: none is leaked. */
    ghost predicate Valid()
      reads this
    {
      running == Held(current)
    }

    /** `let currentQRScanner = null`. */
    constructor()
      ensures Valid()
      ensures current.None? && running == {}
    {
      current := None;
      running := {};
    }

    /** `stopCurrentScanner`: the held session, if any, is stopped and the slot emptied. */
    method Stop()
      requires Valid()
      modifies this
      ensures Valid()
      ensures current.None?
      ensures running == old(running) - Held(old(current))
    {
      running := running - Held(current);
      current := None;
    }

    /**
     * `startQRScanner`: the previous session is stopped first, then the handle that
     * `initQRScanner` returned (`None` when it found no container) is stored.
     */
    method Start(h: Option<Handle>)
      requires Valid()
      modifies this
      ensures Valid()
      ensures current == h
      ensures running == (old(running) - Held(old(current))) + Held(h)
      ensures |running| <= 1
    {
      Stop();
      running := running + Held(h);
      current := h;
    }
  }
}
