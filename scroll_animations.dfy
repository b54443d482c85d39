/**
 * The scroll animations' timeline layout: timeline items slide in from alternating
 * sides, by their position in document order.
 */
module ScrollAnimations {

  const SlideInLeft: string := "slide-in-left"
  const SlideInRight: string := "slide-in-right"

  /** The slide class of the timeline item at `index`: even positions from the
      left, odd positions from the right. */
  function TimelineSlideClass(index: nat): (cls: string)
    ensures cls == SlideInLeft <==> index % 2 == 0
    ensures cls == SlideInRight <==> index % 2 == 1
  {
    if index % 2 == 0 then SlideInLeft else SlideInRight
  }

  /** The classes the `forEach` gives to `count` timeline items, in document order. */
  function TimelineClasses(count: nat): (classes: seq<string>)
    ensures |classes| == count
    ensures forall k :: 0 <= k < count ==> classes[k] == TimelineSlideClass(k)
  {
    if count == 0 then [] else TimelineClasses(count - 1) + [TimelineSlideClass(count - 1)]
  }

  /** Neighbouring items slide in from opposite sides, the first from the left, and
      the sides repeat every two items. */
  lemma {:induction false} TimelineAlternates(count: nat)
    ensures count > 0 ==> TimelineClasses(count)[0] == SlideInLeft
    ensures forall k :: 0 <= k < count - 1 ==>
      TimelineClasses(count)[k] != TimelineClasses(count)[k + 1]
    ensures forall k :: 0 <= k < count - 2 ==>
      TimelineClasses(count)[k] == TimelineClasses(count)[k + 2]
  {
    var cs := TimelineClasses(count);
    forall k | 0 <= k < count - 1 ensures cs[k] != cs[k + 1] {
      assert cs[k] == TimelineSlideClass(k) && cs[k + 1] == TimelineSlideClass(k + 1);
    }
    forall k | 0 <= k < count - 2 ensures cs[k] == cs[k + 2] {
      assert cs[k] == TimelineSlideClass(k) && cs[k + 2] == TimelineSlideClass(k + 2);
    }
  }

  /** Of `count` timeline items, half rounded up slide in from the left. */
  lemma {:induction false} LeftItemsAreHalfRoundedUp(count: nat)
    ensures |set k | 0 <= k < count && TimelineSlideClass(k) == SlideInLeft| == (count + 1) / 2
  {
    if count > 0 {
      LeftItemsAreHalfRoundedUp(count - 1);
      var before := set k | 0 <= k < count - 1 && TimelineSlideClass(k) == SlideInLeft;
      var now := set k | 0 <= k < count && TimelineSlideClass(k) == SlideInLeft;
      if (count - 1) % 2 == 0 {
        assert now == before + {count - 1};
      } else {
        assert now == before;
      }
    }
  }
}
