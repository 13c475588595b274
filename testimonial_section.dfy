/** The non-rendering logic of the testimonial carousel in
    src/components/testimonial_section.tsx: the fixed list of testimonials,
    the navigation state (`currentIndex`, `isAnimating`) with its next/prev
    transitions and the timer that releases the lock, the star row and the
    caption under the author's name. */
module TestimonialSection {
  import opened Wrappers

  /** One testimonial card; `company` is optional. */
  datatype Testimonial = Testimonial(
    id: int,
    quote: string,
    author: string,
    role: string,
    company: Option<string>,
    rating: int,
    avatar: string)

  /** The fixed list the carousel cycles through. */
  const Testimonials: seq<Testimonial> := [
    Testimonial(1,
      "This investment platform helped me achieve a 32% return on my portfolio in just 6 months. The market insights and analytics are exceptional.",
      "James Wilson", "Portfolio Manager", Some("Capital Investments"), 5,
      "/placeholder.svg?height=80&width=80"),
    Testimonial(2,
      "I've tried several investment platforms, but this one stands out with its intuitive interface and powerful analytics. My investment strategy has completely transformed.",
      "Emily Chen", "Retail Investor", None, 5,
      "/placeholder.svg?height=80&width=80"),
    Testimonial(3,
      "The real-time market data and AI-powered recommendations have given me an edge in the market. I've seen consistent growth across my diverse portfolio.",
      "Michael Rodriguez", "Financial Advisor", Some("Wealth Strategies Inc."), 4,
      "/placeholder.svg?height=80&width=80")
  ]

  /** Number of cards, `testimonials.length`. */
  const Length: nat := 3

  /** `Length` is the size of the list. */
  lemma LengthIsListSize()
    ensures |Testimonials| == Length
  {
  }

  /** Number of stars drawn on every card. */
  const StarCount: nat := 5

  // ---------------------------------------------------------------------------
  // Navigation

  /** JavaScript's `%` on integers: truncating division, so the remainder has
      the sign of the dividend. */
  function JsRem(a: int, b: int): (r: int)
    requires b > 0
    ensures a >= 0 ==> r == a % b
    ensures a < 0 ==> -b < r <= 0
    ensures a < 0 ==> r == a + b * ((-a) / b)
  {
    if a >= 0 then a % b else -((-a) % b)
  }

  /** Index shown after "Next": `(i + 1) % testimonials.length`. */
  function NextIndex(i: int): (r: int)
    ensures 0 <= i < Length ==> 0 <= r < Length && r == (i + 1) % Length
  {
    JsRem(i + 1, |Testimonials|)
  }

  /** Index shown after "Previous": `(i - 1 + testimonials.length) % testimonials.length`. */
  function PrevIndex(i: int): (r: int)
    ensures 0 <= i < Length ==> 0 <= r < Length && r == (i - 1) % Length
  {
    JsRem(i - 1 + |Testimonials|, |Testimonials|)
  }

  /** `(i - 1) % testimonials.length`, the decrement without the added length. */
  function BareDecrement(i: int): int {
    JsRem(i - 1, Length)
  }

  /** Without the added length, stepping back from the first card would yield
      a negative index under JavaScript's `%`. */
  lemma BareDecrementGoesNegative()
    ensures forall i :: 0 <= i < Length ==> (BareDecrement(i) < 0 <==> i == 0)
    ensures BareDecrement(0) == -1
    ensures forall i :: 0 <= i < Length ==> PrevIndex(i) >= 0
    ensures PrevIndex(0) == Length - 1
  {
  }

  /** The carousel's two state variables. */
  datatype CarouselState = CarouselState(currentIndex: int, isAnimating: bool)

  /** First render: the first card, unlocked. */
  const Initial: CarouselState := CarouselState(0, false)

  /** The shown index names a card of the list. */
  predicate InRange(s: CarouselState) {
    0 <= s.currentIndex < |Testimonials|
  }

  /** "Next" button: ignored while animating; otherwise locks and moves one card
      forward, wrapping from the last card to the first. */
  function Next(s: CarouselState): (r: CarouselState)
    ensures r.isAnimating
    ensures s.isAnimating ==> r == s
    ensures InRange(s) ==> InRange(r)
    ensures InRange(s) && !s.isAnimating ==> r.currentIndex == (s.currentIndex + 1) % Length
  {
    if !s.isAnimating then CarouselState(NextIndex(s.currentIndex), true) else s
  }

  /** "Previous" button: ignored while animating; otherwise locks and moves one
      card back, wrapping from the first card to the last. */
  function Prev(s: CarouselState): (r: CarouselState)
    ensures r.isAnimating
    ensures s.isAnimating ==> r == s
    ensures InRange(s) ==> InRange(r)
    ensures InRange(s) && !s.isAnimating ==> r.currentIndex == (s.currentIndex - 1) % Length
  {
    if !s.isAnimating then CarouselState(PrevIndex(s.currentIndex), true) else s
  }

  /** The animation timer fires: the lock is released, the index is kept. */
  function Unlock(s: CarouselState): (r: CarouselState)
    ensures !r.isAnimating && r.currentIndex == s.currentIndex
    ensures InRange(r) <==> InRange(s)
    ensures !s.isAnimating ==> r == s
  {
    s.(isAnimating := false)
  }

  /** While unlocked, both buttons change the shown index, so the effect keyed
      on `currentIndex` runs again and arms the timer that will release the lock. */
  lemma NavigationRearmsTimer(s: CarouselState)
    requires InRange(s) && !s.isAnimating
    ensures Next(s).currentIndex != s.currentIndex
    ensures Prev(s).currentIndex != s.currentIndex
  {
  }

  /** "Next", timer, "Previous", timer comes back to the starting state, and so
      does the mirror sequence. */
  lemma NextPrevInverse(s: CarouselState)
    requires InRange(s) && !s.isAnimating
    ensures Unlock(Prev(Unlock(Next(s)))) == s
    ensures Unlock(Next(Unlock(Prev(s)))) == s
  {
  }

  /** What the user or the clock can do to the carousel. */
  datatype Event = ClickNext | ClickPrev | TimerFired

  function Step(s: CarouselState, e: Event): CarouselState {
    match e
    case ClickNext => Next(s)
    case ClickPrev => Prev(s)
    case TimerFired => Unlock(s)
  }

  /** The state after the events, taken in order. */
  function Run(s: CarouselState, events: seq<Event>): CarouselState
    decreases |events|
  {
    if events == [] then s else Run(Step(s, events[0]), events[1..])
  }

  /** No sequence of clicks and timer firings moves the index off the list. */
  lemma {:induction false} RunStaysInRange(s: CarouselState, events: seq<Event>)
    requires InRange(s)
    ensures InRange(Run(s, events))
    decreases |events|
  {
    if events != [] {
      RunStaysInRange(Step(s, events[0]), events[1..]);
    }
  }

  /** `n` presses of one button, each followed by the timer. */
  function Presses(button: Event, n: nat): seq<Event> {
    if n == 0 then [] else [button, TimerFired] + Presses(button, n - 1)
  }

  /** Reducing a partial shift modulo the list length does not change the total. */
  lemma ShiftMod(i: int, d: int, e: int)
    ensures ((i + d) % Length + e) % Length == (i + d + e) % Length
  {
    var q := (i + d) / Length;
    assert i + d == Length * q + (i + d) % Length;
    assert (i + d + e) == ((i + d) % Length + e) + Length * q;
  }

  /** `n` unhindered presses of "Next" advance the index by `n` modulo the list
      length, and of "Previous" move it back by `n`; the lock ends released. */
  lemma {:induction false} PressesRotate(s: CarouselState, n: nat)
    requires InRange(s) && !s.isAnimating
    ensures Run(s, Presses(ClickNext, n)) == CarouselState((s.currentIndex + n) % Length, false)
    ensures Run(s, Presses(ClickPrev, n)) == CarouselState((s.currentIndex - n) % Length, false)
    decreases n
  {
    if n > 0 {
      var i := s.currentIndex;
      var fwd := Unlock(Next(s));
      var back := Unlock(Prev(s));
      assert Run(s, Presses(ClickNext, n)) == Run(fwd, Presses(ClickNext, n - 1)) by {
        var es := Presses(ClickNext, n);
        assert es[0] == ClickNext && es[1..][0] == TimerFired && es[1..][1..] == Presses(ClickNext, n - 1);
      }
      assert Run(s, Presses(ClickPrev, n)) == Run(back, Presses(ClickPrev, n - 1)) by {
        var es := Presses(ClickPrev, n);
        assert es[0] == ClickPrev && es[1..][0] == TimerFired && es[1..][1..] == Presses(ClickPrev, n - 1);
      }
      PressesRotate(fwd, n - 1);
      PressesRotate(back, n - 1);
      ShiftMod(i, 1, n - 1);
      ShiftMod(i, -1, -(n - 1));
    }
  }

  /** Three unhindered presses of either button bring back the starting state. */
  lemma FullCycle(s: CarouselState)
    requires InRange(s) && !s.isAnimating
    ensures Run(s, Presses(ClickNext, |Testimonials|)) == s
    ensures Run(s, Presses(ClickPrev, |Testimonials|)) == s
  {
    PressesRotate(s, |Testimonials|);
  }

  /** The component's live state, updated in place by its handlers. */
  class Carousel {
    var currentIndex: int
    var isAnimating: bool

    function State(): CarouselState
      reads this
    {
      CarouselState(currentIndex, isAnimating)
    }

    ghost predicate Valid()
      reads this
    {
      InRange(State())
    }

    /** First render: the first card, navigation enabled. */
    constructor ()
      ensures Valid() && State() == Initial
    {
      currentIndex := 0;
      isAnimating := false;
    }

    /** Handler of the "Next" button. */
    method NextTestimonial()
      requires Valid()
      modifies this
      ensures Valid() && State() == Next(old(State()))
    {
      if !isAnimating {
        isAnimating := true;
        currentIndex := NextIndex(currentIndex);
      }
    }

    /** Handler of the "Previous" button. */
    method PrevTestimonial()
      requires Valid()
      modifies this
      ensures Valid() && State() == Prev(old(State()))
    {
      if !isAnimating {
        isAnimating := true;
        currentIndex := PrevIndex(currentIndex);
      }
    }

    /** The 500 ms timer armed after each index change has fired. */
    method TimerElapsed()
      requires Valid()
      modifies this
      ensures Valid() && State() == Unlock(old(State()))
    {
      isAnimating := false;
    }

    /** The card on display. */
    method Shown() returns (t: Testimonial)
      requires Valid()
      ensures t in Testimonials && t == Testimonials[currentIndex]
    {
      t := Testimonials[currentIndex];
    }
  }

  // ---------------------------------------------------------------------------
  // Card contents

  /** Star `i` of the row is drawn filled. */
  predicate StarFilled(i: int, rating: int) {
    i < rating
  }

  /** The row of star flags for a rating; filled stars come first. */
  function Stars(rating: int): (r: seq<bool>)
    ensures |r| == StarCount
    ensures forall i :: 0 <= i < |r| ==> (r[i] <==> i < rating)
    ensures forall i, j :: 0 <= i < j < |r| && r[j] ==> r[i]
  {
    seq(StarCount, i => StarFilled(i, rating))
  }

  /** Number of filled stars in a row. */
  function CountFilled(row: seq<bool>): nat {
    if row == [] then 0 else CountFilled(row[..|row| - 1]) + (if row[|row| - 1] then 1 else 0)
  }

  function Clamp(x: int, lo: int, hi: int): int
    requires lo <= hi
  {
    if x < lo then lo else if x > hi then hi else x
  }

  /** A row of `n` stars for `rating` has the rating, clamped to `[0, n]`, filled. */
  lemma {:induction false} FilledPrefixCount(n: nat, rating: int)
    ensures CountFilled(seq(n, i => StarFilled(i, rating))) == Clamp(rating, 0, n)
  {
    if n > 0 {
      var row := seq(n, i => StarFilled(i, rating));
      var shorter := seq(n - 1, i => StarFilled(i, rating));
      assert row[..n - 1] == shorter;
      FilledPrefixCount(n - 1, rating);
    }
  }

  /** The five-star row shows the rating clamped to `[0, 5]`; for a rating in
      that range it shows exactly the rating. */
  lemma StarsShowRating(rating: int)
    ensures CountFilled(Stars(rating)) == Clamp(rating, 0, StarCount)
    ensures 0 <= rating <= StarCount ==> CountFilled(Stars(rating)) == rating
  {
    FilledPrefixCount(StarCount, rating);
    assert Stars(rating) == seq(StarCount, i => StarFilled(i, rating));
  }

  /** Every listed card shows as many filled stars as its rating. */
  lemma ListedStarsMatchRatings()
    ensures forall t :: t in Testimonials ==> CountFilled(Stars(t.rating)) == t.rating
  {
    StarsShowRating(5);
    StarsShowRating(4);
  }

  /** The company is shown only when present and non-empty (an empty string is
      falsy in JavaScript). */
  predicate HasCompany(t: Testimonial) {
    t.company.Some? && t.company.value != ""
  }

  /** The line under the author's name: the role, then ", " and the company
      when there is one. */
  function Caption(t: Testimonial): (r: string)
    ensures t.role <= r
    ensures r == t.role <==> !HasCompany(t)
    ensures HasCompany(t) ==> r[|t.role|..] == ", " + t.company.value
  {
    t.role + (if HasCompany(t) then ", " + t.company.value else "")
  }

  /** The captions of the three listed cards: the second has no company. */
  lemma ListedCaptions()
    ensures Caption(Testimonials[0]) == "Portfolio Manager" + ", " + "Capital Investments"
    ensures Caption(Testimonials[1]) == "Retail Investor"
    ensures Caption(Testimonials[2]) == "Financial Advisor" + ", " + "Wealth Strategies Inc."
  {
  }
}
