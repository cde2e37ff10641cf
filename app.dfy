/**
 * The page-level component: it tracks which section is scrolled into view so
 * that the navigation bar can highlight it. On every scroll event it probes
 * 100 px below the scroll offset and adopts the first section, in document
 * order, whose vertical extent contains the probe; if none does, the active
 * section stays as it was.
 *
 * The browser is reduced to parameters: `scrollY` is the scroll offset and a
 * `Layout` maps the id of each section element present in the page to its
 * `offsetTop` and `offsetHeight`.
 */
module App {

  import opened Optional

  /** An element's vertical extent: `offsetTop` and `offsetHeight`. */
  datatype Extent = Extent(top: int, height: int)

  /** What `document.getElementById` finds: no key means no such element. */
  type Layout = map<string, Extent>

  /** The sections, in the order they are examined (document order). */
  const SectionIds: seq<string> := ["home", "about", "products", "gallery", "contact"]

  /** The bias added to the scroll offset, for the fixed navigation bar. */
  const LookaheadBias: int := 100

  /** The active section before any scroll event. */
  const InitialSection: string := "home"

  /** Half-open containment: `top <= position < top + height`. */
  predicate Contains(e: Extent, position: int)
  {
    e.top <= position < e.top + e.height
  }

  /** The element with this id exists and its extent contains `position`. */
  predicate HitAt(id: string, layout: Layout, position: int)
  {
    id in layout && Contains(layout[id], position)
  }

  /** The index of the first id whose element contains `position`, if any. */
  function FirstMatch(ids: seq<string>, layout: Layout, position: int): (r: Option<nat>)
    ensures r.Some? ==> r.value < |ids| && HitAt(ids[r.value], layout, position)
    ensures r.Some? ==> forall j :: 0 <= j < r.value ==> !HitAt(ids[j], layout, position)
    ensures r.None? ==> forall j :: 0 <= j < |ids| ==> !HitAt(ids[j], layout, position)
  {
    if ids == [] then None
    else if HitAt(ids[0], layout, position) then Some(0)
    else match FirstMatch(ids[1..], layout, position)
      case None => None
      case Some(k) => Some(k + 1)
  }

  /**
   * The active section after one scroll event at offset `scrollY`, when it
   * was `current` before.
   */
  function Resolve(current: string, layout: Layout, scrollY: int): (r: string)
    ensures r == current || r in SectionIds
    ensures r != current ==> HitAt(r, layout, scrollY + LookaheadBias)
    ensures (forall j :: 0 <= j < |SectionIds| ==> !HitAt(SectionIds[j], layout, scrollY + LookaheadBias))
            ==> r == current
  {
    match FirstMatch(SectionIds, layout, scrollY + LookaheadBias)
    case Some(i) => SectionIds[i]
    case None => current
  }

  /** The position of `id` in `ids`, or `|ids|` when it does not occur. */
  function IndexOf(ids: seq<string>, id: string): (r: nat)
    ensures r <= |ids|
    ensures r < |ids| ==> ids[r] == id && forall j :: 0 <= j < r ==> ids[j] != id
    ensures r == |ids| ==> id !in ids
  {
    if ids == [] then 0
    else if ids[0] == id then 0
    else 1 + IndexOf(ids[1..], id)
  }

  /** The place of a section in document order. */
  function Rank(id: string): nat
  {
    IndexOf(SectionIds, id)
  }

  /** No two sections share an id. */
  lemma SectionIdsDistinct()
    ensures forall i, j :: 0 <= i < j < |SectionIds| ==> SectionIds[i] != SectionIds[j]
  {
  }

  lemma RankOfSection(i: nat)
    requires i < |SectionIds|
    ensures Rank(SectionIds[i]) == i
  {
    SectionIdsDistinct();
  }

  /**
   * First match wins: the earliest section containing the probe becomes
   * active, whatever the sections after it contain.
   */
  lemma ResolveFirstMatchWins(current: string, layout: Layout, scrollY: int, i: nat)
    requires i < |SectionIds|
    requires HitAt(SectionIds[i], layout, scrollY + LookaheadBias)
    requires forall j :: 0 <= j < i ==> !HitAt(SectionIds[j], layout, scrollY + LookaheadBias)
    ensures Resolve(current, layout, scrollY) == SectionIds[i]
  {
  }

  /** With no section containing the probe, the active section is kept. */
  lemma ResolveRetains(current: string, layout: Layout, scrollY: int)
    requires forall j :: 0 <= j < |SectionIds| ==> !HitAt(SectionIds[j], layout, scrollY + LookaheadBias)
    ensures Resolve(current, layout, scrollY) == current
  {
  }

  /** A section whose element is absent never becomes active. */
  lemma AbsentSectionSkipped(current: string, layout: Layout, scrollY: int, id: string)
    requires id !in layout && id != current
    ensures Resolve(current, layout, scrollY) != id
  {
  }

  /**
   * The bounds are half-open: a scroll offset that puts the probe exactly on
   * a section's top selects it (when no earlier section contains the probe);
   * one that puts the probe exactly on its bottom does not.
   */
  lemma ResolveHalfOpen(current: string, layout: Layout, i: nat)
    requires i < |SectionIds| && SectionIds[i] in layout
    requires SectionIds[i] != current
    ensures var e := layout[SectionIds[i]];
            Resolve(current, layout, e.top + e.height - LookaheadBias) != SectionIds[i]
    ensures var e := layout[SectionIds[i]];
            e.height > 0 &&
            (forall j :: 0 <= j < i ==> !HitAt(SectionIds[j], layout, e.top))
            ==> Resolve(current, layout, e.top - LookaheadBias) == SectionIds[i]
  {
  }

  /** A section of height zero or less never becomes active. */
  lemma EmptySectionSkipped(current: string, layout: Layout, scrollY: int, id: string)
    requires id in layout && layout[id].height <= 0 && id != current
    ensures Resolve(current, layout, scrollY) != id
  {
  }

  /** Handling the same scroll event twice is the same as handling it once. */
  lemma ResolveIdempotent(current: string, layout: Layout, scrollY: int)
    ensures Resolve(Resolve(current, layout, scrollY), layout, scrollY) == Resolve(current, layout, scrollY)
  {
  }

  /**
   * Only the sections up to the first match are consulted: two layouts that
   * agree on them resolve alike, whatever the later sections look like.
   */
  lemma LaterSectionsNotConsulted(current: string, a: Layout, b: Layout, scrollY: int, i: nat)
    requires i < |SectionIds|
    requires FirstMatch(SectionIds, a, scrollY + LookaheadBias) == Some(i)
    requires forall j :: 0 <= j <= i ==>
               (SectionIds[j] in a <==> SectionIds[j] in b) &&
               (SectionIds[j] in a ==> a[SectionIds[j]] == b[SectionIds[j]])
    ensures Resolve(current, a, scrollY) == Resolve(current, b, scrollY)
  {
  }

  /** The sections' extents follow document order and do not overlap. */
  ghost predicate InDocumentOrder(ids: seq<string>, layout: Layout)
  {
    forall i, j :: 0 <= i < j < |ids| && ids[i] in layout && ids[j] in layout ==>
      layout[ids[i]].top + layout[ids[i]].height <= layout[ids[j]].top
  }

  /** In an ordered layout a lower probe never matches a later section. */
  lemma FirstMatchMonotone(ids: seq<string>, layout: Layout, p: int, q: int)
    requires InDocumentOrder(ids, layout) && p <= q
    requires FirstMatch(ids, layout, p).Some? && FirstMatch(ids, layout, q).Some?
    ensures FirstMatch(ids, layout, p).value <= FirstMatch(ids, layout, q).value
  {
  }

  /** The active sections after each of a series of scroll events. */
  function Trace(current: string, layout: Layout, scrolls: seq<int>): (r: seq<string>)
    ensures |r| == |scrolls|
    decreases |scrolls|
  {
    if scrolls == [] then []
    else
      var next := Resolve(current, layout, scrolls[0]);
      [next] + Trace(next, layout, scrolls[1..])
  }

  ghost predicate NonDecreasing(s: seq<int>)
  {
    forall k :: 0 <= k < |s| - 1 ==> s[k] <= s[k + 1]
  }

  /** `current` is the initial section, or the one a scroll to `low` adopts. */
  ghost predicate Anchored(current: string, layout: Layout, low: int)
  {
    current == InitialSection ||
    FirstMatch(SectionIds, layout, low + LookaheadBias) == Some(Rank(current))
  }

  /**
   * One scroll event at an offset no lower than the anchor moves the active
   * section forward or leaves it, and anchors whatever it adopts.
   */
  lemma ResolveStepForward(current: string, layout: Layout, low: int, y: int)
    requires InDocumentOrder(SectionIds, layout)
    requires Anchored(current, layout, low) && low <= y
    ensures Rank(current) <= Rank(Resolve(current, layout, y))
    ensures Resolve(current, layout, y) == current || Anchored(Resolve(current, layout, y), layout, y)
  {
    var m := FirstMatch(SectionIds, layout, y + LookaheadBias);
    if m.Some? {
      RankOfSection(m.value);
      if current != InitialSection {
        FirstMatchMonotone(SectionIds, layout, low + LookaheadBias, y + LookaheadBias);
      }
    }
  }

  lemma {:induction false} TraceMonotoneFrom(current: string, layout: Layout, scrolls: seq<int>, low: int)
    requires InDocumentOrder(SectionIds, layout)
    requires NonDecreasing(scrolls)
    requires Anchored(current, layout, low)
    requires scrolls != [] ==> low <= scrolls[0]
    ensures var t := Trace(current, layout, scrolls);
            (t != [] ==> Rank(current) <= Rank(t[0])) &&
            forall k :: 0 <= k < |t| - 1 ==> Rank(t[k]) <= Rank(t[k + 1])
    decreases |scrolls|
  {
    if scrolls != [] {
      var y, rest := scrolls[0], scrolls[1..];
      var next := Resolve(current, layout, y);
      ResolveStepForward(current, layout, low, y);
      var low' := if next == current then low else y;
      assert NonDecreasing(rest) by {
        forall k | 0 <= k < |rest| - 1 ensures rest[k] <= rest[k + 1] {
          assert rest[k] == scrolls[k + 1] && rest[k + 1] == scrolls[k + 2];
        }
      }
      assert rest != [] ==> low' <= rest[0] by {
        if rest != [] { assert scrolls[0] <= scrolls[1]; }
      }
      TraceMonotoneFrom(next, layout, rest, low');
      assert Trace(current, layout, scrolls) == [next] + Trace(next, layout, rest);
    }
  }

  /**
   * Scrolling down never moves the highlight backwards: from the initial
   * state, a series of non-decreasing scroll offsets over an ordered layout
   * yields active sections that never go back in document order.
   */
  lemma ScrollingDownNeverMovesBack(layout: Layout, scrolls: seq<int>)
    requires InDocumentOrder(SectionIds, layout)
    requires NonDecreasing(scrolls)
    ensures var t := Trace(InitialSection, layout, scrolls);
            forall k :: 0 <= k < |t| - 1 ==> Rank(t[k]) <= Rank(t[k + 1])
  {
    if scrolls != [] {
      TraceMonotoneFrom(InitialSection, layout, scrolls, scrolls[0]);
    }
  }

  /**
   * The worked example: home at [0, 800), about at [800, 1600) and products
   * at [1600, 2400); scrolling to 750 probes 850, inside about. Scrolling to
   * 1500 probes products' top exactly and selects it; 1499 still selects about.
   */
  lemma ThreeSectionExample(current: string)
    ensures var layout := map["home" := Extent(0, 800), "about" := Extent(800, 800),
                              "products" := Extent(1600, 800)];
            Resolve(current, layout, 750) == "about" &&
            Resolve(current, layout, 1500) == "products" &&
            Resolve(current, layout, 1499) == "about"
  {
    var layout := map["home" := Extent(0, 800), "about" := Extent(800, 800),
                      "products" := Extent(1600, 800)];
    SectionIdsDistinct();
    ResolveFirstMatchWins(current, layout, 750, 1);
    ResolveFirstMatchWins(current, layout, 1500, 2);
    ResolveFirstMatchWins(current, layout, 1499, 1);
  }

  /** The state held by the page component. */
  class AppState {

    var activeSection: string

    /** The active section is always one of the declared sections. */
    ghost predicate Valid()
      reads this
    {
      activeSection in SectionIds
    }

    constructor ()
      ensures Valid()
      ensures activeSection == InitialSection
    {
      activeSection := InitialSection;
    }

    /** The scroll listener: scan the sections in order, stop at the first hit. */
    method HandleScroll(layout: Layout, scrollY: int)
      requires Valid()
      modifies this
      ensures Valid()
      ensures activeSection == Resolve(old(activeSection), layout, scrollY)
    {
      var sections := SectionIds;
      var scrollPosition := scrollY + LookaheadBias;
      var i := 0;
      while i < |sections|
        invariant 0 <= i <= |sections|
        invariant forall j :: 0 <= j < i ==> !HitAt(sections[j], layout, scrollPosition)
        invariant activeSection == old(activeSection)
      {
        var section := sections[i];
        if section in layout {
          var element := layout[section];
          var offsetTop := element.top;
          var offsetBottom := offsetTop + element.height;
          if scrollPosition >= offsetTop && scrollPosition < offsetBottom {
            activeSection := section;
            break;
          }
        }
        i := i + 1;
      }
    }
  }

}
