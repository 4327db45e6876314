/** `animateOnScroll`: sections tagged `animate-on-scroll` gain the class
    `in-view` once any part of them is inside the viewport, less a 100px
    margin at the bottom. The class is only ever added. */
module Reveal {

  /** The margin kept at the bottom of the viewport. */
  const RevealMargin := 100

  /** An element's `getBoundingClientRect()` top and bottom. */
  datatype Rect = Rect(top: int, bottom: int)

  /** What one check reads: the elements' rectangles and `innerHeight`. */
  datatype Frame = Frame(rects: seq<Rect>, innerHeight: int)

  predicate Visible(r: Rect, innerHeight: int) {
    r.top < innerHeight - RevealMargin && r.bottom > 0
  }

  /** The `in-view` flags after one check of frame `f`. */
  function Check(inView: seq<bool>, f: Frame): (r: seq<bool>)
    requires |f.rects| == |inView|
    ensures |r| == |inView|
    ensures forall i :: 0 <= i < |r| ==> (r[i] <==> inView[i] || Visible(f.rects[i], f.innerHeight))
  {
    seq(|inView|, i requires 0 <= i < |inView| => inView[i] || Visible(f.rects[i], f.innerHeight))
  }

  /** The same elements are checked on every frame. */
  predicate SameElements(n: nat, frames: seq<Frame>) {
    forall t :: 0 <= t < |frames| ==> |frames[t].rects| == n
  }

  /** The flags after checking every frame of `frames` in order. */
  function Session(inView: seq<bool>, frames: seq<Frame>): (r: seq<bool>)
    requires SameElements(|inView|, frames)
    ensures |r| == |inView|
    ensures forall i :: 0 <= i < |r| && inView[i] ==> r[i]
    decreases |frames|
  {
    if frames == [] then inView else Session(Check(inView, frames[0]), frames[1..])
  }

  /** Over any run of scroll checks, an element ends up revealed exactly when
      it was revealed before or was visible in some frame: reveal is
      monotone and never undone. */
  lemma {:induction false} SessionReveals(inView: seq<bool>, frames: seq<Frame>, i: int)
    requires SameElements(|inView|, frames) && 0 <= i < |inView|
    decreases |frames|
    ensures Session(inView, frames)[i] <==>
      inView[i] || exists t :: 0 <= t < |frames| && Visible(frames[t].rects[i], frames[t].innerHeight)
  {
    if frames != [] {
      var next := Check(inView, frames[0]);
      SessionReveals(next, frames[1..], i);
      if exists t :: 0 <= t < |frames[1..]| && Visible(frames[1..][t].rects[i], frames[1..][t].innerHeight) {
        var t :| 0 <= t < |frames[1..]| && Visible(frames[1..][t].rects[i], frames[1..][t].innerHeight);
        assert frames[1..][t] == frames[t + 1];
      }
      if exists t :: 0 <= t < |frames| && Visible(frames[t].rects[i], frames[t].innerHeight) {
        var t :| 0 <= t < |frames| && Visible(frames[t].rects[i], frames[t].innerHeight);
        if t > 0 {
          assert frames[1..][t - 1] == frames[t];
        }
      }
    }
  }

  /** The checker as the page runs it, over the live `in-view` flags. */
  method AnimateOnScroll(rects: seq<Rect>, innerHeight: int, inView: array<bool>)
    requires inView.Length == |rects|
    modifies inView
    ensures inView[..] == Check(old(inView[..]), Frame(rects, innerHeight))
  {
    for i := 0 to inView.Length
      invariant forall m :: 0 <= m < i ==> inView[m] == (old(inView[m]) || Visible(rects[m], innerHeight))
      invariant forall m :: i <= m < inView.Length ==> inView[m] == old(inView[m])
    {
      if rects[i].top < innerHeight - RevealMargin && rects[i].bottom > 0 {
        inView[i] := true;
      }
    }
  }
}
