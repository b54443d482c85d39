/**
 * The hero title's typing effect: the title's text is read, the element is cleared,
 * and each timer tick appends the next character until the whole text is shown.
 * The timer is a loop here: one call of `Tick` is one run of the scheduled callback.
 */
module TypingEffect {

  function Min(a: int, b: int): int {
    if a <= b then a else b
  }

  class Typewriter {
    /** The text the title held when the effect started. */
    const text: string
    /** The title's current `textContent`. */
    var shown: string
    /** The index of the next character to type. */
    var i: nat

    /** The title shows exactly the characters typed so far. */
    predicate Valid()
      reads this
    {
      i <= |text| && shown == text[..i]
    }

    /** The title's text is saved and the title emptied. */
    constructor (title: string)
      ensures text == title && shown == "" && i == 0
      ensures Valid()
    {
      text := title;
      shown := "";
      i := 0;
    }

    /** One run of the callback: while characters remain, append the next one and
        report that another tick is scheduled; otherwise stop. */
    method Tick() returns (rescheduled: bool)
      requires Valid()
      modifies this
      ensures Valid()
      ensures rescheduled <==> old(i) < |text|
      ensures i == if rescheduled then old(i) + 1 else old(i)
    {
      rescheduled := i < |text|;
      if rescheduled {
        assert text[..i + 1] == text[..i] + [text[i]];
        shown := shown + [text[i]];
        i := i + 1;
      }
    }

    /** `k` further ticks show the first `min(i + k, |text|)` characters. */
    method RunTicks(k: nat)
      requires Valid()
      modifies this
      ensures Valid()
      ensures i == Min(old(i) + k, |text|) && shown == text[..i]
    {
      var n := 0;
      while n < k
        invariant Valid()
        invariant 0 <= n <= k
        invariant i == Min(old(i) + n, |text|)
      {
        var _ := Tick();
        n := n + 1;
      }
    }

    /** The timer chain from the current index runs until the text is exhausted:
        one tick per remaining character plus the last one that stops, and the
        title then reads the whole text. */
    method RunToCompletion() returns (ticks: nat)
      requires Valid()
      modifies this
      ensures Valid() && i == |text| && shown == text
      ensures ticks == |text| - old(i) + 1
    {
      var more := Tick();
      ticks := 1;
      while more
        invariant Valid()
        invariant !more ==> i == |text|
        invariant ticks == i - old(i) + (if more then 0 else 1)
        decreases |text| - i + (if more then 1 else 0)
      {
        more := Tick();
        ticks := ticks + 1;
      }
    }
  }

  /** From a fresh start, `k` ticks show the first `min(k, |text|)` characters and
      |text| + 1 ticks finish with the whole text shown. */
  method TypeTitle(title: string, k: nat) returns (afterK: string, finished: string, ticks: nat)
    ensures afterK == title[..Min(k, |title|)]
    ensures finished == title && ticks == |title| + 1
  {
    var t := new Typewriter(title);
    t.RunTicks(k);
    afterK := t.shown;
    var u := new Typewriter(title);
    ticks := u.RunToCompletion();
    finished := u.shown;
  }
}
