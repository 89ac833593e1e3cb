/**
 * The product carousel engine shared by the paint (`TintasCarousel`), offers
 * (`OffersCarousel`) and electrical (`EletricosCarousel`) rows: the display
 * list that repeats the products until the track is long enough, the index
 * bounds capped at nine stops, the wrap-around steps, and the index and
 * auto-play state that arrows, indicator dots, hovering and timers update.
 *
 * Timers are events: `Tick` is one firing of the auto-advance interval, and
 * `FireResume` is one firing of a "resume auto-play" timeout. The source never
 * cancels those timeouts, so the model only counts how many are pending.
 */
module Carousel {
  import opened Text
  import opened Arith

  /** The constants that distinguish the three carousels. */
  datatype Config = Config(
    visibleCards: nat,      // cards in view at once
    resumeMs: nat,          // delay of the timeout that turns auto-play back on
    pausesOnHover: bool,    // the container has mouse-enter/leave handlers
    minToScroll: nat,       // fewer products than this: no duplication, no controls, no tick
    showsEmptyState: bool)  // renders a skeleton while loading and a message when empty

  const Tintas: Config := Config(5, 6000, true, 0, false)
  const Offers: Config := Config(4, 8000, false, 0, true)
  const Eletricos: Config := Config(5, 6000, true, 4, false)

  /** The navigation is limited to this many stops. */
  const MaxStops: nat := 9

  // ---------------------------------------------------------------------------
  // The display list

  /** `k` copies of `items`, one after the other. */
  function Repeat<T>(items: seq<T>, k: nat): (r: seq<T>)
    ensures |r| == k * |items|
  {
    if k == 0 then [] else Repeat(items, k - 1) + items
  }

  /** Position `i` of the repeated list holds item `i mod n`. */
  lemma {:induction false} RepeatElements<T>(items: seq<T>, k: nat)
    requires |items| > 0
    ensures forall i :: 0 <= i < |Repeat(items, k)| ==> Repeat(items, k)[i] == items[i % |items|]
  {
    if k > 0 {
      RepeatElements(items, k - 1);
      var n := |items|;
      var prev := Repeat(items, k - 1);
      forall i | |prev| <= i < |Repeat(items, k)|
        ensures Repeat(items, k)[i] == items[i % n]
      {
        ModAfterWholeCopies(i, n, k - 1);
      }
    }
  }

  lemma ModAfterWholeCopies(i: int, n: int, m: nat)
    requires n > 0 && m * n <= i < m * n + n
    ensures i % n == i - m * n
  {
    var j := i - m * n;
    assert i == m * n + j && 0 <= j < n;
    DivModUnique(i, n, m, j);
  }

  /** How many copies of an `n`-item list the duplication loop ends with: the
      fewest, at least one, whose total length reaches `minLen`. */
  function CopiesNeeded(n: nat, minLen: nat): (k: nat)
    requires n > 0
    ensures k >= 1 && k * n >= minLen
    ensures k == 1 || (k - 1) * n < minLen
    decreases minLen
  {
    if n >= minLen then 1 else 1 + CopiesNeeded(n, minLen - n)
  }

  /** The copy count is determined by the two conditions in its contract. */
  lemma {:induction false} CopiesNeededUnique(n: nat, minLen: nat, k: nat)
    requires n > 0 && k >= 1 && k * n >= minLen && (k == 1 || (k - 1) * n < minLen)
    ensures k == CopiesNeeded(n, minLen)
    decreases minLen
  {
    if n < minLen {
      assert k != 1;
      CopiesNeededUnique(n, minLen - n, k - 1);
    }
  }

  /** `produtosDuplicados`: an empty product list stays empty; a list below
      the configured minimum is shown as it is; otherwise the products are
      repeated whole until there are at least two screens of cards. */
  function DisplayList<T>(cfg: Config, products: seq<T>): seq<T> {
    if products == [] then []
    else if |products| < cfg.minToScroll then products
    else Repeat(products, CopiesNeeded(|products|, 2 * cfg.visibleCards))
  }

  /** The duplication loop of `produtosDuplicados`. */
  method BuildDisplayList<T>(cfg: Config, products: seq<T>) returns (shown: seq<T>)
    ensures shown == DisplayList(cfg, products)
  {
    if |products| == 0 {
      return [];
    }
    if |products| < cfg.minToScroll {
      return products;
    }
    var minLen := cfg.visibleCards * 2;
    shown := products;
    ghost var copies := 1;
    while |shown| < minLen
      invariant copies >= 1 && shown == Repeat(products, copies)
      invariant copies == 1 || (copies - 1) * |products| < minLen
      decreases minLen - |shown|
    {
      shown := shown + products;
      copies := copies + 1;
    }
    CopiesNeededUnique(|products|, minLen, copies);
  }

  /** The display list is a whole number of copies of the products, long
      enough for two screens and shorter than two screens plus one copy. */
  lemma DisplayListShape<T>(cfg: Config, products: seq<T>)
    requires cfg.visibleCards > 0 && |products| >= cfg.minToScroll
    ensures products == [] ==> DisplayList(cfg, products) == []
    ensures products != [] ==>
      var shown := DisplayList(cfg, products);
      var k := CopiesNeeded(|products|, 2 * cfg.visibleCards);
      && shown == Repeat(products, k)
      && |shown| >= 2 * cfg.visibleCards
      && |shown| < 2 * cfg.visibleCards + |products|
      && (forall i :: 0 <= i < |shown| ==> shown[i] == products[i % |products|])
  {
    if products != [] {
      var k := CopiesNeeded(|products|, 2 * cfg.visibleCards);
      RepeatElements(products, k);
      assert k * |products| == (k - 1) * |products| + |products|;
    }
  }

  /** Products that already fill two screens are shown as they are. */
  lemma DisplayListLongInput<T>(cfg: Config, products: seq<T>)
    requires products != [] && |products| >= cfg.minToScroll && |products| >= 2 * cfg.visibleCards
    ensures DisplayList(cfg, products) == products
  {
    assert Repeat(products, 1) == Repeat(products, 0) + products;
  }

  /** In the electrical carousel fewer than four products are shown as they
      are, and the carousel then has a single stop. */
  lemma EletricosFewProducts<T>(products: seq<T>)
    requires |products| < 4
    ensures DisplayList(Eletricos, products) == products
    ensures LastIndex(|products|, Eletricos.visibleCards) == 0
  {
  }

  // ---------------------------------------------------------------------------
  // Bounds

  /** `maxIndex`: the first card index that still fills the screen. */
  function MaxIndex(len: nat, visible: nat): nat {
    Max(0, len - visible)
  }

  /** `maxNavegacao`: the number of stops, and of indicator dots. */
  function StopCount(len: nat, visible: nat): (c: nat)
    ensures 1 <= c <= MaxStops
  {
    Min(MaxIndex(len, visible) + 1, MaxStops)
  }

  /** `maxIndexLimitado`: the last stop. */
  function LastIndex(len: nat, visible: nat): (last: nat)
    ensures last == Min(MaxIndex(len, visible), MaxStops - 1)
    ensures last + 1 == StopCount(len, visible)
    ensures last <= 8
  {
    StopCount(len, visible) - 1
  }

  // ---------------------------------------------------------------------------
  // Steps

  /** The step of the "next" arrow and of the auto-advance interval. */
  function Next(i: nat, last: nat): nat {
    if i >= last then 0 else i + 1
  }

  /** The step of the "previous" arrow. */
  function Prev(i: nat, last: nat): nat {
    if i <= 0 then last else i - 1
  }

  /** Where indicator dot `d` moves the index. */
  function DotTarget(d: nat, last: nat): nat {
    Min(d, last)
  }

  /** Every step keeps the index within [0, last]. */
  lemma StepsStayInRange(i: nat, d: nat, last: nat)
    ensures Next(i, last) <= last
    ensures i <= last ==> Prev(i, last) <= last
    ensures DotTarget(d, last) <= last
  {
  }

  /** "Previous" undoes "next" and "next" undoes "previous". */
  lemma PrevNextInverse(i: nat, last: nat)
    requires i <= last
    ensures Prev(Next(i, last), last) == i
    ensures Next(Prev(i, last), last) == i
  {
  }

  /** Every dot leads to its own stop. */
  lemma DotsReachTheirStop(d: nat, len: nat, visible: nat)
    requires d < StopCount(len, visible)
    ensures DotTarget(d, LastIndex(len, visible)) == d
  {
  }

  /** `n` steps of "next" from `i`. */
  function NextN(i: nat, last: nat, n: nat): nat {
    if n == 0 then i else Next(NextN(i, last, n - 1), last)
  }

  /** Before the wrap, `n` steps of "next" just add `n`. */
  lemma {:induction false} NextNBeforeWrap(i: nat, last: nat, n: nat)
    requires i + n <= last
    ensures NextN(i, last, n) == i + n
  {
    if n > 0 {
      NextNBeforeWrap(i, last, n - 1);
    }
  }

  /** `n + m` steps are `n` steps followed by `m` steps. */
  lemma {:induction false} NextNAdd(i: nat, last: nat, n: nat, m: nat)
    ensures NextN(i, last, n + m) == NextN(NextN(i, last, n), last, m)
  {
    if m > 0 {
      NextNAdd(i, last, n, m - 1);
    }
  }

  /** The auto-advance visits every stop and is back where it started after
      exactly `last + 1` ticks. */
  lemma NextCycle(i: nat, last: nat)
    requires i <= last
    ensures NextN(i, last, last + 1) == i
    ensures forall n :: 0 < n <= last ==> NextN(i, last, n) != i
  {
    NextNAfterWrap(i, last, i);
    forall n | 0 < n <= last
      ensures NextN(i, last, n) != i
    {
      if n <= last - i {
        NextNBeforeWrap(i, last, n);
      } else {
        NextNAfterWrap(i, last, n - (last - i + 1));
      }
    }
  }

  /** Past the wrap, `last - i + 1 + k` steps from `i` land on `k`. */
  lemma NextNAfterWrap(i: nat, last: nat, k: nat)
    requires i <= last && k <= i
    ensures NextN(i, last, last - i + 1 + k) == k
  {
    NextNBeforeWrap(i, last, last - i);
    NextNAdd(i, last, last - i + 1, k);
    NextNBeforeWrap(0, last, k);
  }


  // ---------------------------------------------------------------------------
  // What is rendered

  datatype View = Hidden | LoadingSkeleton | EmptyState | Track

  /** The paint and electrical rows render nothing while loading or without
      products; the offers row shows a skeleton and then an empty message. */
  function ViewOf(cfg: Config, loading: bool, productCount: nat): (v: View)
    ensures v == Track <==> !loading && productCount > 0
    ensures v == EmptyState <==> cfg.showsEmptyState && !loading && productCount == 0
  {
    if loading then (if cfg.showsEmptyState then LoadingSkeleton else Hidden)
    else if productCount == 0 then (if cfg.showsEmptyState then EmptyState else Hidden)
    else Track
  }

  // ---------------------------------------------------------------------------
  // The component state after its products have loaded

  class ProductCarousel<T> {
    const cfg: Config
    const products: seq<T>
    const shown: seq<T>
    var index: nat
    var autoPlaying: bool
    var hovered: bool
    var pendingResumes: nat

    function Last(): nat
      reads this
    {
      LastIndex(|shown|, cfg.visibleCards)
    }

    ghost predicate Valid()
      reads this
    {
      && shown == DisplayList(cfg, products)
      && index <= Last()
      && (hovered ==> cfg.pausesOnHover)
    }

    /** The arrows and dots are rendered. */
    predicate ControlsShown()
      reads this
    {
      |products| >= cfg.minToScroll && |shown| > cfg.visibleCards
    }

    /** The auto-advance interval is running. */
    predicate TickRuns()
      reads this
    {
      autoPlaying && ControlsShown() && !(cfg.pausesOnHover && hovered)
    }

    constructor(cfg: Config, products: seq<T>)
      ensures Valid()
      ensures this.cfg == cfg && this.products == products
      ensures index == 0 && autoPlaying && !hovered && pendingResumes == 0
    {
      this.cfg := cfg;
      this.products := products;
      var list := BuildDisplayList(cfg, products);
      this.shown := list;
      index := 0;
      autoPlaying := true;
      hovered := false;
      pendingResumes := 0;
    }

    /** One firing of the auto-advance interval; no interval exists while it
        is paused, so nothing happens then. */
    method Tick()
      requires Valid()
      modifies this
      ensures Valid()
      ensures old(TickRuns()) ==> index == Next(old(index), Last())
      ensures !old(TickRuns()) ==> index == old(index)
      ensures autoPlaying == old(autoPlaying) && hovered == old(hovered)
      ensures pendingResumes == old(pendingResumes)
    {
      if TickRuns() {
        index := Next(index, Last());
      }
    }

    /** `moveCarousel("next")`, from the right arrow, which is rendered only
        while the controls are. */
    method MoveNext()
      requires Valid() && ControlsShown()
      modifies this
      ensures Valid()
      ensures index == Next(old(index), Last())
      ensures !autoPlaying && hovered == old(hovered)
      ensures pendingResumes == old(pendingResumes) + 1
    {
      autoPlaying := false;
      index := Next(index, Last());
      pendingResumes := pendingResumes + 1;
    }

    /** `moveCarousel("prev")`, from the left arrow. */
    method MovePrev()
      requires Valid() && ControlsShown()
      modifies this
      ensures Valid()
      ensures index == Prev(old(index), Last())
      ensures !autoPlaying && hovered == old(hovered)
      ensures pendingResumes == old(pendingResumes) + 1
    {
      autoPlaying := false;
      index := Prev(index, Last());
      pendingResumes := pendingResumes + 1;
    }

    /** A click on indicator dot `d`; the dots are numbered from 0 below
        `maxNavegacao`. */
    method ClickDot(d: nat)
      requires Valid() && ControlsShown()
      requires d < StopCount(|shown|, cfg.visibleCards)
      modifies this
      ensures Valid()
      ensures index == d
      ensures !autoPlaying && hovered == old(hovered)
      ensures pendingResumes == old(pendingResumes) + 1
    {
      autoPlaying := false;
      index := DotTarget(d, Last());
      pendingResumes := pendingResumes + 1;
    }

    method MouseEnter()
      requires Valid()
      modifies this
      ensures Valid()
      ensures hovered == (cfg.pausesOnHover || old(hovered))
      ensures index == old(index) && autoPlaying == old(autoPlaying)
      ensures pendingResumes == old(pendingResumes)
    {
      if cfg.pausesOnHover {
        hovered := true;
      }
    }

    method MouseLeave()
      requires Valid()
      modifies this
      ensures Valid()
      ensures !hovered
      ensures index == old(index) && autoPlaying == old(autoPlaying)
      ensures pendingResumes == old(pendingResumes)
    {
      if cfg.pausesOnHover {
        hovered := false;
      }
    }

    /** The oldest pending resume timeout fires. It turns auto-play on even
        when a later manual action scheduled another one. */
    method FireResume()
      requires Valid() && pendingResumes > 0
      modifies this
      ensures Valid()
      ensures autoPlaying
      ensures pendingResumes == old(pendingResumes) - 1
      ensures index == old(index) && hovered == old(hovered)
    {
      autoPlaying := true;
      pendingResumes := pendingResumes - 1;
    }
  }

  /** Two quick clicks and the first timeout: auto-play is back on although
      the second click's cooldown has not run out. */
  method EarlyResume<T>(c: ProductCarousel<T>)
    requires c.Valid() && c.ControlsShown()
    modifies c
    ensures c.autoPlaying && c.pendingResumes == old(c.pendingResumes) + 1
  {
    c.MoveNext();
    c.MoveNext();
    c.FireResume();
  }
}
