/**
 * The hero banner's typewriter animation (src/components/Hero.tsx).
 *
 * Three state cells -- the displayed text, the index of the current title
 * and the deleting flag -- are advanced by a single-shot timer that is re-armed
 * after every change.  A typing tick adds the next character of the title; a
 * tick on a fully typed title changes nothing and arms a separate, longer
 * timer whose expiry switches to deleting; a deleting tick removes the last
 * character, and a deleting tick on empty text moves on to the next title.
 * Timers are explicit events here: `TickElapsed` and `PauseElapsed`.
 */
module Hero {

  /** The titles that are typed and deleted in turn. */
  const Titles: seq<string> :=
    ["Aspiring IT Expert", "Web Developer", "AI Enthusiast", "Problem Solver"]

  /** Length of the longest title. */
  const LongestTitle: nat := 18

  /** Tick intervals in milliseconds, and the pause before deleting starts. */
  const TypingDelay: nat := 100
  const DeletingDelay: nat := 50
  const PauseDelay: nat := 2000

  /** The three state cells of the animator. */
  datatype Animator = Animator(text: string, index: nat, deleting: bool)

  /** The state of a freshly mounted animator. */
  const Initial: Animator := Animator("", 0, false)

  /** The text shown is a prefix of the title it belongs to. */
  predicate Inv(s: Animator) {
    s.index < |Titles| && s.text <= Titles[s.index]
  }

  /** The effect of one tick of the re-armed timer. */
  function Tick(s: Animator): (r: Animator)
    requires s.index < |Titles|
    ensures r.index < |Titles|
    ensures Inv(s) ==> Inv(r)
    // typing a title that is not complete appends exactly its next character
    ensures Inv(s) && !s.deleting && |s.text| < |Titles[s.index]| ==>
      r == s.(text := s.text + [Titles[s.index][|s.text|]])
    // a tick on a fully typed title changes nothing; it only arms the pause timer
    ensures !s.deleting && |s.text| >= |Titles[s.index]| ==> r == s
    // a tick never switches from typing to deleting: that is the pause's job
    ensures !s.deleting ==> !r.deleting && r.index == s.index
    // deleting shortens the text by one, or moves on to the next title
    ensures s.deleting && s.text != [] ==>
      r.deleting && r.index == s.index && r.text + [s.text[|s.text| - 1]] == s.text
    ensures s.deleting && s.text == [] ==>
      r == Animator([], (s.index + 1) % |Titles|, false)
  {
    var title := Titles[s.index];
    if !s.deleting then
      if |s.text| < |title| then s.(text := title[..|s.text| + 1])
      else s
    else
      if |s.text| > 0 then s.(text := s.text[..|s.text| - 1])
      else s.(deleting := false, index := (s.index + 1) % |Titles|)
  }

  /** The expiry of the 2000 ms timer armed by a tick on a fully typed title. */
  function Pause(s: Animator): (r: Animator)
    ensures r.deleting && r.text == s.text && r.index == s.index
  {
    s.(deleting := true)
  }

  /** The delay before the next tick fires. */
  function Delay(s: Animator): (ms: nat)
    ensures s.deleting ==> ms == DeletingDelay
    ensures !s.deleting ==> ms == TypingDelay
  {
    if s.deleting then DeletingDelay else TypingDelay
  }

  /** The timer events that drive the animator. */
  datatype Event = TickElapsed | PauseElapsed

  function Step(s: Animator, e: Event): (r: Animator)
    requires s.index < |Titles|
    ensures r.index < |Titles|
    ensures Inv(s) ==> Inv(r)
  {
    match e
    case TickElapsed => Tick(s)
    case PauseElapsed => Pause(s)
  }

  /** The state reached after the events, in order. */
  function Run(s: Animator, events: seq<Event>): (r: Animator)
    requires s.index < |Titles|
    ensures r.index < |Titles|
    ensures Inv(s) ==> Inv(r)
    decreases |events|
  {
    if events == [] then s else Run(Step(s, events[0]), events[1..])
  }

  /** `n` copies of one event. */
  function Repeat(e: Event, n: nat): (r: seq<Event>)
    ensures |r| == n && forall k :: 0 <= k < n ==> r[k] == e
  {
    if n == 0 then [] else [e] + Repeat(e, n - 1)
  }

  lemma {:induction false} RunAppend(s: Animator, a: seq<Event>, b: seq<Event>)
    requires s.index < |Titles|
    ensures Run(s, a + b) == Run(Run(s, a), b)
    decreases |a|
  {
    if a == [] {
      assert a + b == b;
    } else {
      assert (a + b)[1..] == a[1..] + b;
      RunAppend(Step(s, a[0]), a[1..], b);
    }
  }

  /** Every reachable state satisfies the invariant, whatever the order of the events. */
  lemma ReachableStatesAreValid(events: seq<Event>)
    ensures Inv(Run(Initial, events))
    ensures |Run(Initial, events).text| <= LongestTitle
  {
  }

  /** Typing ticks extend a partly typed title to the whole title. */
  lemma {:induction false} TypingCompletes(i: nat, k: nat)
    requires i < |Titles| && k <= |Titles[i]|
    ensures Run(Animator(Titles[i][..k], i, false), Repeat(TickElapsed, |Titles[i]| - k))
            == Animator(Titles[i], i, false)
    decreases |Titles[i]| - k
  {
    var title := Titles[i];
    if k == |title| {
      assert title[..k] == title;
    } else {
      var s := Animator(title[..k], i, false);
      assert Tick(s) == Animator(title[..k + 1], i, false);
      TypingCompletes(i, k + 1);
    }
  }

  /** Deleting ticks remove a prefix of a title down to the empty text. */
  lemma {:induction false} DeletingEmpties(i: nat, k: nat)
    requires i < |Titles| && k <= |Titles[i]|
    ensures Run(Animator(Titles[i][..k], i, true), Repeat(TickElapsed, k))
            == Animator([], i, true)
    decreases k
  {
    var title := Titles[i];
    if k > 0 {
      var s := Animator(title[..k], i, true);
      assert title[..k][..k - 1] == title[..k - 1];
      assert Tick(s) == Animator(title[..k - 1], i, true);
      DeletingEmpties(i, k - 1);
    }
  }

  /**
   * One full cycle: type the title, tick once on the full title, let the
   * pause expire, delete it, and tick once on the empty text.  The animator is
   * back at empty text, typing, on the next title.
   */
  lemma FullCycle(i: nat)
    requires i < |Titles|
    ensures Run(Animator([], i, false),
                Repeat(TickElapsed, |Titles[i]|) + [TickElapsed, PauseElapsed]
                + Repeat(TickElapsed, |Titles[i]|) + [TickElapsed])
            == Animator([], (i + 1) % |Titles|, false)
  {
    var n := |Titles[i]|;
    var start := Animator([], i, false);
    var typing, pause, deleting := Repeat(TickElapsed, n), [TickElapsed, PauseElapsed], Repeat(TickElapsed, n);
    assert Titles[i][..0] == [];
    TypingCompletes(i, 0);
    var full := Animator(Titles[i], i, false);
    assert Run(full, pause) == Animator(Titles[i], i, true);
    assert Titles[i][..n] == Titles[i];
    DeletingEmpties(i, n);
    RunAppend(start, typing, pause);
    RunAppend(start, typing + pause, deleting);
    RunAppend(start, typing + pause + deleting, [TickElapsed]);
  }

  /** The animator as the component holds it: three state cells. */
  class Typewriter {
    var displayedText: string
    var currentIndex: nat
    var isDeleting: bool

    function State(): Animator
      reads this
    {
      Animator(displayedText, currentIndex, isDeleting)
    }

    predicate Valid()
      reads this
    {
      Inv(State())
    }

    constructor ()
      ensures State() == Initial && Valid()
    {
      displayedText, currentIndex, isDeleting := "", 0, false;
    }

    /** The handler run when the tick timer fires. */
    method TickElapsed()
      requires Valid()
      modifies this
      ensures State() == Tick(old(State())) && Valid()
    {
      var currentTitle := Titles[currentIndex];
      if !isDeleting {
        if |displayedText| < |currentTitle| {
          displayedText := currentTitle[..|displayedText| + 1];
        }
        // else: the pause timer is armed; it is the separate PauseElapsed event
      } else if |displayedText| > 0 {
        displayedText := displayedText[..|displayedText| - 1];
      } else {
        isDeleting := false;
        currentIndex := (currentIndex + 1) % |Titles|;
      }
    }

    /** The handler run when the pause timer fires. */
    method PauseElapsed()
      requires Valid()
      modifies this
      ensures State() == Pause(old(State())) && Valid()
    {
      isDeleting := true;
    }

    /** The interval with which the next tick timer is armed. */
    method NextDelay() returns (ms: nat)
      ensures ms == Delay(State())
    {
      ms := if isDeleting then DeletingDelay else TypingDelay;
    }
  }
}
