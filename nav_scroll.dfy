/** The navigation bar's scroll listener: a "scrolled" background past 50px,
    and, once the offset exceeds the bar's own height, hidden while scrolling
    down and shown while scrolling up. */
module NavScroll {

  /** Past this offset the bar takes its "scrolled" background. */
  const ScrolledThreshold := 50

  /** The bar's `style.transform`: unset until the offset first exceeds the
      bar's height, afterwards `translateY(px)`. */
  datatype NavTransform = Unset | TranslateY(px: int)

  /** Everything one scroll tick reads and writes. */
  datatype NavState = NavState(lastScroll: int, scrolled: bool, transform: NavTransform)

  /** `translateY(-navHeight px)`: moved off screen by its own height. */
  function Hidden(navHeight: int): NavTransform {
    TranslateY(-navHeight)
  }

  /** `translateY(0)`. */
  const Shown := TranslateY(0)

  /** One scroll tick at offset `y`. */
  function Tick(s: NavState, navHeight: int, y: int): (r: NavState)
    ensures r.lastScroll == y && (r.scrolled <==> y > ScrolledThreshold)
    ensures r.transform == s.transform || r.transform == Hidden(navHeight) || r.transform == Shown
    ensures r.transform != s.transform ==> y > navHeight
  {
    NavState(
      y,
      y > ScrolledThreshold,
      if y > navHeight then (if y > s.lastScroll then Hidden(navHeight) else Shown)
      else s.transform)
  }

  /** The state after the ticks `ys`, in order. */
  function Replay(s: NavState, navHeight: int, ys: seq<int>): (r: NavState)
    ensures r.transform == s.transform || r.transform == Hidden(navHeight) || r.transform == Shown
    ensures (forall m :: 0 <= m < |ys| ==> ys[m] <= navHeight) ==> r.transform == s.transform
    decreases |ys|
  {
    if ys == [] then s else Replay(Tick(s, navHeight, ys[0]), navHeight, ys[1..])
  }

  /** The index of the last tick in `ys` whose offset exceeds the bar's height, if any. */
  function LastPastBar(navHeight: int, ys: seq<int>): (k: int)
    ensures -1 <= k < |ys|
    ensures k >= 0 ==> ys[k] > navHeight
    ensures forall m :: k < m < |ys| ==> ys[m] <= navHeight
    decreases |ys|
  {
    if ys == [] then -1
    else if ys[|ys| - 1] > navHeight then |ys| - 1
    else LastPastBar(navHeight, ys[..|ys| - 1])
  }

  /** The offset a tick at index `k` of `ys` compares against. */
  function PreviousOffset(s: NavState, ys: seq<int>, k: int): int
    requires 0 <= k < |ys|
  {
    if k == 0 then s.lastScroll else ys[k - 1]
  }

  /** After any non-empty run of ticks: `lastScroll` is the final offset, the
      bar is "scrolled" exactly when that offset is past 50px, and the
      transform is set by the last tick whose offset exceeds the bar's height
      (hidden when that tick moved down, shown otherwise), or untouched if
      there was none. */
  lemma {:induction false} ReplayOutcome(s: NavState, navHeight: int, ys: seq<int>)
    requires ys != []
    decreases |ys|
    ensures Replay(s, navHeight, ys).lastScroll == ys[|ys| - 1]
    ensures Replay(s, navHeight, ys).scrolled <==> ys[|ys| - 1] > ScrolledThreshold
    ensures var k := LastPastBar(navHeight, ys);
      Replay(s, navHeight, ys).transform ==
        if k < 0 then s.transform
        else if ys[k] > PreviousOffset(s, ys, k) then Hidden(navHeight)
        else Shown
  {
    var n := |ys|;
    var init := ys[..n - 1];
    ReplaySnoc(s, navHeight, init, ys[n - 1]);
    assert init + [ys[n - 1]] == ys;
    if n > 1 {
      ReplayOutcome(s, navHeight, init);
      if ys[n - 1] <= navHeight {
        assert LastPastBar(navHeight, ys) == LastPastBar(navHeight, init);
        var k := LastPastBar(navHeight, init);
        if k >= 0 {
          assert PreviousOffset(s, ys, k) == PreviousOffset(s, init, k);
        }
      }
    }
  }

  /** Replaying one more tick is one more `Tick`. */
  lemma {:induction false} ReplaySnoc(s: NavState, navHeight: int, ys: seq<int>, y: int)
    decreases |ys|
    ensures Replay(s, navHeight, ys + [y]) == Tick(Replay(s, navHeight, ys), navHeight, y)
  {
    if ys == [] {
      assert [] + [y] == [y];
    } else {
      assert (ys + [y])[1..] == ys[1..] + [y];
      ReplaySnoc(Tick(s, navHeight, ys[0]), navHeight, ys[1..], y);
    }
  }

  /** The bar: its height is read once at load; `lastScroll` lives for the
      whole page. */
  class NavBar {
    const navHeight: int
    var lastScroll: int
    var scrolled: bool
    var transform: NavTransform

    ghost function State(): NavState
      reads this
    {
      NavState(lastScroll, scrolled, transform)
    }

    /** Load time: `lastScroll` starts at 0; the markup carries no "scrolled"
        class and no transform. */
    constructor (height: nat)
      ensures navHeight == height && State() == NavState(0, false, Unset)
    {
      navHeight := height;
      lastScroll := 0;
      scrolled := false;
      transform := Unset;
    }

    /** The `scroll` listener at offset `currentScroll`. */
    method OnScroll(currentScroll: int)
      modifies this
      ensures State() == Tick(old(State()), navHeight, currentScroll)
      ensures lastScroll == currentScroll
      ensures scrolled <==> currentScroll > ScrolledThreshold
      ensures currentScroll <= navHeight ==> transform == old(transform)
      ensures currentScroll > navHeight && currentScroll > old(lastScroll) ==> transform == Hidden(navHeight)
      ensures currentScroll > navHeight && currentScroll <= old(lastScroll) ==> transform == Shown
    {
      if currentScroll > ScrolledThreshold {
        scrolled := true;
      } else {
        scrolled := false;
      }
      if currentScroll > navHeight {
        if currentScroll > lastScroll {
          transform := Hidden(navHeight);
        } else {
          transform := Shown;
        }
      }
      lastScroll := currentScroll;
    }
  }
}
