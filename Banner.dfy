/**
 * `BannerCarousel`: the active banners in ascending `ordem` (a stable sort,
 * as `Array.prototype.sort` is), and the slide index that the arrows, the
 * dots and the five-second interval move. Resume timeouts are counted, never
 * cancelled, as in the carousel engine.
 */
module BannerCarousel {
  import opened Seqs
  import opened Catalog

  predicate IsActive(b: Banner) {
    b.ativo
  }

  predicate SortedByOrdem(bs: seq<Banner>) {
    forall i, j :: 0 <= i < j < |bs| ==> bs[i].ordem <= bs[j].ordem
  }

  /** The banners with a given `ordem`, in order: a sort is stable when it
      keeps every such run as it was. */
  function WithOrdem(bs: seq<Banner>, k: int): seq<Banner>
    decreases |bs|
  {
    if bs == [] then []
    else (if bs[0].ordem == k then [bs[0]] else []) + WithOrdem(bs[1..], k)
  }

  /** Puts `x` in front of the first banner whose `ordem` is not smaller. */
  function Insert(x: Banner, bs: seq<Banner>): (r: seq<Banner>)
    ensures |r| == |bs| + 1
    decreases |bs|
  {
    if bs == [] || x.ordem <= bs[0].ordem then [x] + bs
    else [bs[0]] + Insert(x, bs[1..])
  }

  lemma {:induction false} InsertPermutes(x: Banner, bs: seq<Banner>)
    ensures multiset(Insert(x, bs)) == multiset(bs) + multiset{x}
    decreases |bs|
  {
    if bs != [] && x.ordem > bs[0].ordem {
      InsertPermutes(x, bs[1..]);
      assert bs == [bs[0]] + bs[1..];
    }
  }

  /** `sort((a, b) => a.ordem - b.ordem)`, as an insertion sort. */
  function SortByOrdem(bs: seq<Banner>): (r: seq<Banner>)
    ensures |r| == |bs|
    decreases |bs|
  {
    if bs == [] then [] else Insert(bs[0], SortByOrdem(bs[1..]))
  }

  /** The sort is a permutation. */
  lemma {:induction false} SortPermutes(bs: seq<Banner>)
    ensures multiset(SortByOrdem(bs)) == multiset(bs)
    decreases |bs|
  {
    if bs != [] {
      SortPermutes(bs[1..]);
      InsertPermutes(bs[0], SortByOrdem(bs[1..]));
      assert bs == [bs[0]] + bs[1..];
    }
  }

  lemma ConsSorted(h: Banner, r: seq<Banner>)
    requires SortedByOrdem(r)
    requires forall i :: 0 <= i < |r| ==> h.ordem <= r[i].ordem
    ensures SortedByOrdem([h] + r)
  {
    var whole := [h] + r;
    forall i, j | 0 <= i < j < |whole| ensures whole[i].ordem <= whole[j].ordem {
      assert whole[j] == r[j - 1];
      if i > 0 {
        assert whole[i] == r[i - 1];
      }
    }
  }

  /** A bound below `x` and below every banner is a bound below the insertion. */
  lemma {:induction false} InsertLowerBound(x: Banner, bs: seq<Banner>, m: int)
    requires x.ordem >= m
    requires forall i :: 0 <= i < |bs| ==> bs[i].ordem >= m
    ensures forall i :: 0 <= i < |Insert(x, bs)| ==> Insert(x, bs)[i].ordem >= m
    decreases |bs|
  {
    if bs != [] && x.ordem > bs[0].ordem {
      InsertLowerBound(x, bs[1..], m);
    }
  }

  lemma {:induction false} InsertSorted(x: Banner, bs: seq<Banner>)
    requires SortedByOrdem(bs)
    ensures SortedByOrdem(Insert(x, bs))
    decreases |bs|
  {
    if bs == [] || x.ordem <= bs[0].ordem {
      ConsSorted(x, bs);
    } else {
      InsertSorted(x, bs[1..]);
      InsertLowerBound(x, bs[1..], bs[0].ordem);
      ConsSorted(bs[0], Insert(x, bs[1..]));
    }
  }

  lemma WithOrdemCons(h: Banner, t: seq<Banner>, k: int)
    ensures WithOrdem([h] + t, k) == (if h.ordem == k then [h] else []) + WithOrdem(t, k)
  {
    assert ([h] + t)[1..] == t;
  }

  lemma {:induction false} InsertKeepsRuns(x: Banner, bs: seq<Banner>, k: int)
    ensures WithOrdem(Insert(x, bs), k) == (if x.ordem == k then [x] else []) + WithOrdem(bs, k)
    decreases |bs|
  {
    if bs == [] || x.ordem <= bs[0].ordem {
      WithOrdemCons(x, bs, k);
    } else {
      InsertBehindHead(x, bs, k);
    }
  }

  lemma {:induction false} InsertBehindHead(x: Banner, bs: seq<Banner>, k: int)
    requires bs != [] && x.ordem > bs[0].ordem
    ensures WithOrdem(Insert(x, bs), k) == (if x.ordem == k then [x] else []) + WithOrdem(bs, k)
    decreases |bs|, 0
  {
    var tail := Insert(x, bs[1..]);
    assert Insert(x, bs) == [bs[0]] + tail;
    InsertKeepsRuns(x, bs[1..], k);
    WithOrdemCons(bs[0], tail, k);
    WithOrdemCons(bs[0], bs[1..], k);
    assert [bs[0]] + bs[1..] == bs;
    SwapAroundEmpty(if bs[0].ordem == k then [bs[0]] else [], if x.ordem == k then [x] else [], WithOrdem(bs[1..], k));
  }

  lemma SwapAroundEmpty(a: seq<Banner>, b: seq<Banner>, c: seq<Banner>)
    requires a == [] || b == []
    ensures a + (b + c) == b + (a + c)
  {
    if a == [] {
      assert a + (b + c) == b + c == b + (a + c);
    } else {
      assert a + (b + c) == a + c == b + (a + c);
    }
  }


  /** The sort orders by `ordem`. */
  lemma {:induction false} SortSorted(bs: seq<Banner>)
    ensures SortedByOrdem(SortByOrdem(bs))
    decreases |bs|
  {
    if bs != [] {
      SortSorted(bs[1..]);
      InsertSorted(bs[0], SortByOrdem(bs[1..]));
    }
  }

  /** The sort is stable: banners with equal `ordem` keep their relative order. */
  lemma {:induction false} SortStable(bs: seq<Banner>, k: int)
    ensures WithOrdem(SortByOrdem(bs), k) == WithOrdem(bs, k)
    decreases |bs|
  {
    if bs != [] {
      SortStable(bs[1..], k);
      InsertKeepsRuns(bs[0], SortByOrdem(bs[1..]), k);
      assert bs == [bs[0]] + bs[1..];
    }
  }

  /** The banners the carousel shows: `data.filter(ativo).sort(by ordem)`. */
  function ActiveBanners(data: seq<Banner>): seq<Banner> {
    SortByOrdem(Filter(data, IsActive))
  }

  /** The shown banners are exactly the active ones, sorted by `ordem`, with
      equal `ordem` in their original order. */
  lemma ActiveBannersSpec(data: seq<Banner>, k: int)
    ensures var shown := ActiveBanners(data);
      && multiset(shown) == multiset(Filter(data, IsActive))
      && (forall i :: 0 <= i < |shown| ==> shown[i].ativo && shown[i] in data)
      && SortedByOrdem(shown)
      && WithOrdem(shown, k) == WithOrdem(Filter(data, IsActive), k)
  {
    var active := Filter(data, IsActive);
    var shown := ActiveBanners(data);
    SortSorted(active);
    SortStable(active, k);
    SortPermutes(active);
    forall i | 0 <= i < |shown| ensures shown[i].ativo && shown[i] in data {
      assert shown[i] in multiset(active);
    }
  }

  // ---------------------------------------------------------------------------
  // Slide state

  /** The interval's step and the "next" arrow. */
  function NextSlide(i: nat, n: nat): nat {
    if i == n - 1 then 0 else i + 1
  }

  /** The "previous" arrow. */
  function PrevSlide(i: nat, n: nat): int {
    if i == 0 then n - 1 else i - 1
  }

  /** With at least one banner both arrows stay on a banner and undo each other. */
  lemma SlideStepsInverse(i: nat, n: nat)
    requires i < n
    ensures NextSlide(i, n) < n && 0 <= PrevSlide(i, n) < n
    ensures PrevSlide(NextSlide(i, n), n) == i
    ensures NextSlide(PrevSlide(i, n) as nat, n) == i
  {
  }

  class Slideshow {
    var banners: seq<Banner>
    var index: nat
    var autoPlaying: bool
    var loading: bool
    var pendingResumes: nat

    ghost predicate Valid()
      reads this
    {
      index == 0 || index < |banners|
    }

    /** Arrows and dots are rendered. */
    predicate ControlsShown()
      reads this
    {
      |banners| > 1
    }

    predicate TickRuns()
      reads this
    {
      autoPlaying && |banners| > 1
    }

    /** The opacity class each slide is rendered with, in banner order:
        `index === currentIndex ? "opacity-100" : "opacity-0"`. */
    function SlideOpacity(): (cls: seq<string>)
      reads this
      ensures |cls| == |banners|
    {
      var current := index;
      seq(|banners|, i => if i == current then "opacity-100" else "opacity-0")
    }

    constructor()
      ensures Valid()
      ensures banners == [] && index == 0 && autoPlaying && loading && pendingResumes == 0
    {
      banners := [];
      index := 0;
      autoPlaying := true;
      loading := true;
      pendingResumes := 0;
    }

    /** `fetchBanners` completes; a thrown fetch leaves the list as it was. */
    method Loaded(response: Fetched<seq<Banner>>)
      requires Valid() && index == 0
      modifies this
      ensures Valid() && !loading && index == 0
      ensures response.Body? ==> banners == ActiveBanners(response.value)
      ensures !response.Body? ==> banners == old(banners)
      ensures autoPlaying == old(autoPlaying) && pendingResumes == old(pendingResumes)
    {
      if response.Body? {
        banners := ActiveBanners(response.value);
      }
      loading := false;
    }

    method Tick()
      requires Valid()
      modifies this
      ensures Valid() && banners == old(banners) && loading == old(loading)
      ensures old(TickRuns()) ==> index == NextSlide(old(index), |banners|)
      ensures !old(TickRuns()) ==> index == old(index)
      ensures autoPlaying == old(autoPlaying) && pendingResumes == old(pendingResumes)
    {
      if TickRuns() {
        index := NextSlide(index, |banners|);
      }
    }

    /** `goToPrevious`; its button exists only with more than one banner. */
    method GoToPrevious()
      requires Valid() && ControlsShown()
      modifies this
      ensures Valid() && banners == old(banners) && loading == old(loading)
      ensures index == PrevSlide(old(index), |banners|)
      ensures !autoPlaying && pendingResumes == old(pendingResumes) + 1
    {
      autoPlaying := false;
      index := PrevSlide(index, |banners|) as nat;
      pendingResumes := pendingResumes + 1;
    }

    /** `goToNext`. */
    method GoToNext()
      requires Valid() && ControlsShown()
      modifies this
      ensures Valid() && banners == old(banners) && loading == old(loading)
      ensures index == NextSlide(old(index), |banners|)
      ensures !autoPlaying && pendingResumes == old(pendingResumes) + 1
    {
      autoPlaying := false;
      index := NextSlide(index, |banners|);
      pendingResumes := pendingResumes + 1;
    }

    /** `goToSlide(i)` from dot `i`: the index is set as given, without clamping. */
    method GoToSlide(i: nat)
      requires Valid() && ControlsShown() && i < |banners|
      modifies this
      ensures Valid() && banners == old(banners) && loading == old(loading)
      ensures index == i
      ensures !autoPlaying && pendingResumes == old(pendingResumes) + 1
    {
      autoPlaying := false;
      index := i;
      pendingResumes := pendingResumes + 1;
    }

    method FireResume()
      requires Valid() && pendingResumes > 0
      modifies this
      ensures Valid() && banners == old(banners) && index == old(index) && loading == old(loading)
      ensures autoPlaying && pendingResumes == old(pendingResumes) - 1
    {
      autoPlaying := true;
      pendingResumes := pendingResumes - 1;
    }
  }

  /** The slides rendered fully opaque. */
  function OpaqueSlides(cls: seq<string>): set<nat> {
    set i: nat | i < |cls| && cls[i] == "opacity-100"
  }

  /** Exactly one slide, the current one, is fully opaque when there are
      banners to show; a valid index always names a rendered slide. */
  lemma OneOpaqueBanner(s: Slideshow)
    requires s.Valid() && |s.banners| > 0
    ensures s.index < |s.banners|
    ensures OpaqueSlides(s.SlideOpacity()) == {s.index}
    ensures |OpaqueSlides(s.SlideOpacity())| == 1
  {
    var cls := s.SlideOpacity();
    assert cls[s.index] == "opacity-100";
    forall i: nat | i < |cls| && i != s.index
      ensures cls[i] != "opacity-100"
    {
      assert cls[i] == "opacity-0";
    }
  }
}
