/** The public projects section: the auto-advancing image slider of each
    project, the split of the project list into a front-end and a UX part,
    the category chip and the two-digit running numbers. */
module PublicProjects {
  import opened Lists
  import opened Text

  /** `currentIndex`: a slide position, or `NaN`, which `(prev + 1) % 0`
      produces for a project without images. */
  datatype SlideIndex = Index(i: nat) | NotANumber

  /** `(prev + 1) % images.length`. */
  function Advance(s: SlideIndex, count: nat): (r: SlideIndex)
    ensures count > 0 && s.Index? ==> r == Index((s.i + 1) % count) && r.i < count
    ensures count == 0 || s.NotANumber? ==> r == NotANumber
  {
    if count == 0 then NotANumber
    else match s
      case Index(i) => Index((i + 1) % count)
      case NotANumber => NotANumber
  }

  /** The slide shown after `steps` ticks. */
  function AdvanceBy(s: SlideIndex, count: nat, steps: nat): SlideIndex
  {
    if steps == 0 then s else Advance(AdvanceBy(s, count, steps - 1), count)
  }

  /** Within one round the slider moves `steps` places forward and wraps
      past the last image to the first. */
  lemma {:induction false} AdvanceByIsRotation(i: nat, count: nat, steps: nat)
    requires i < count && steps <= count
    ensures AdvanceBy(Index(i), count, steps) ==
      Index(if i + steps < count then i + steps else i + steps - count)
  {
    if steps > 0 {
      AdvanceByIsRotation(i, count, steps - 1);
      WrapStep(if i + steps - 1 < count then i + steps - 1 else i + steps - 1 - count, count);
    }
  }

  /** One step from slide `j` goes to the next slide, or from the last to the first. */
  lemma WrapStep(j: nat, count: nat)
    requires j < count
    ensures (j + 1) % count == if j + 1 < count then j + 1 else 0
  {
  }

  /** After as many ticks as there are images the slider is back where it
      started, and not earlier. */
  lemma SliderCycles(i: nat, count: nat)
    requires i < count
    ensures AdvanceBy(Index(i), count, count) == Index(i)
    ensures forall k :: 0 < k < count ==> AdvanceBy(Index(i), count, k) != Index(i)
  {
    AdvanceByIsRotation(i, count, count);
    forall k | 0 < k < count ensures AdvanceBy(Index(i), count, k) != Index(i) {
      AdvanceByIsRotation(i, count, k);
    }
  }

  /** The state of one `ImageSlider`. */
  class Slider {
    const count: nat
    var current: SlideIndex
    var hovered: bool

    /** With at least one image the shown slide is always one of them. */
    ghost predicate Valid()
      reads this
    {
      count > 0 ==> current.Index? && current.i < count
    }

    constructor (count: nat)
      ensures Valid()
      ensures this.count == count && current == Index(0) && !hovered
    {
      this.count := count;
      current := Index(0);
      hovered := false;
    }

    /** `onMouseEnter` and `onMouseLeave`. */
    method SetHovered(h: bool)
      requires Valid()
      modifies this`hovered
      ensures Valid() && hovered == h
    {
      hovered := h;
    }

    /** One firing of the four-second timer. While the cursor is over the
        slider no timer is running, so nothing moves. */
    method Tick()
      requires Valid()
      modifies this`current
      ensures Valid()
      ensures old(hovered) ==> current == old(current)
      ensures !old(hovered) ==> current == Advance(old(current), count)
    {
      if hovered {
        return;
      }
      current := Advance(current, count);
    }

    /** Clicking dot `k`; there is one dot per image. */
    method SelectDot(k: nat)
      requires Valid() && k < count
      modifies this`current
      ensures Valid() && current == Index(k)
    {
      current := Index(k);
    }
  }

  /** One entry of the `projects` array the section renders. */
  datatype PublicProject = PublicProject(
    id: int,
    title: string,
    category: string,
    images: seq<string>,
    description: string,
    tags: seq<string>,
    demo: string,
    github: string)

  const FrontendCategory: string := "前端開發"
  const UxCategory: string := "UX 設計"

  predicate IsFrontend(p: PublicProject)
  {
    p.category == FrontendCategory
  }

  predicate IsUx(p: PublicProject)
  {
    p.category == UxCategory
  }

  /** A project that one of the two parts lists. */
  predicate IsListed(p: PublicProject)
  {
    IsFrontend(p) || IsUx(p)
  }

  /** `frontendProjects`. */
  function FrontendProjects(ps: seq<PublicProject>): (r: seq<PublicProject>)
    ensures forall i :: 0 <= i < |r| ==> r[i].category == FrontendCategory
  {
    Filter(ps, IsFrontend)
  }

  /** `uxProjects`. */
  function UxProjects(ps: seq<PublicProject>): (r: seq<PublicProject>)
    ensures forall i :: 0 <= i < |r| ==> r[i].category == UxCategory
  {
    Filter(ps, IsUx)
  }

  /** A project is in the front-end part exactly when its category is the
      front-end one, and likewise for UX; so no project is in both and a
      project of any other category is in neither. */
  lemma SplitByCategory(ps: seq<PublicProject>, p: PublicProject)
    ensures p in FrontendProjects(ps) <==> p in ps && p.category == FrontendCategory
    ensures p in UxProjects(ps) <==> p in ps && p.category == UxCategory
    ensures !(p in FrontendProjects(ps) && p in UxProjects(ps))
  {
    FilterMember(ps, IsFrontend, p);
    FilterMember(ps, IsUx, p);
  }

  /** The two parts together hold every listed project once. */
  lemma SplitSizes(ps: seq<PublicProject>)
    ensures |FrontendProjects(ps)| + |UxProjects(ps)| == |Filter(ps, IsListed)|
  {
    FilterDisjointUnion(ps, IsFrontend, IsUx, IsListed);
  }

  /** Splitting keeps the order of the list. */
  lemma SplitKeepsOrder(a: seq<PublicProject>, b: seq<PublicProject>)
    ensures FrontendProjects(a + b) == FrontendProjects(a) + FrontendProjects(b)
    ensures UxProjects(a + b) == UxProjects(a) + UxProjects(b)
  {
    FilterConcat(a, b, IsFrontend);
    FilterConcat(a, b, IsUx);
  }

  /** The text of the category chip. */
  function CategoryLabel(category: string): (r: string)
    ensures r == "前端" <==> category == FrontendCategory
    ensures r == "UX" <==> category != FrontendCategory
  {
    if category == FrontendCategory then "前端" else "UX"
  }

  /** `n.toString().padStart(2, '0')`. */
  function ProjectNumber(n: nat): (r: string)
    ensures |r| >= 2 && IsDigits(r)
    ensures n < 100 ==> |r| == 2
    ensures n >= 10 ==> r == NatToDecimal(n)
    ensures n < 10 ==> r == "0" + NatToDecimal(n)
  {
    var digits := NatToDecimal(n);
    assert n < 100 ==> |digits| <= 2 by {
      if 10 <= n < 100 {
        assert NatToDecimal(n / 10) == [DigitChar(n / 10)];
      }
    }
    ZeroPadValue(digits, 2);
    PadStart(digits, 2, '0')
  }

  /** A project number reads back as the number. */
  lemma ProjectNumberValue(n: nat)
    ensures DecimalValue(ProjectNumber(n)) == n
  {
    ZeroPadValue(NatToDecimal(n), 2);
    DecimalRoundTrip(n);
  }

  /** `count` consecutive project numbers after `start`. */
  function Numbers(start: nat, count: nat): (r: seq<string>)
    ensures |r| == count
    ensures forall i :: 0 <= i < count ==> r[i] == ProjectNumber(start + i + 1)
  {
    seq(count, i requires 0 <= i < count => ProjectNumber(start + i + 1))
  }

  /** The numbers shown on the two parts: `index + 1` on the front-end
      projects, then `index + 1 + frontendProjects.length` on the UX ones. */
  function Numbering(ps: seq<PublicProject>): (r: seq<string>)
    ensures |r| == |FrontendProjects(ps)| + |UxProjects(ps)|
  {
    Numbers(0, |FrontendProjects(ps)|) + Numbers(|FrontendProjects(ps)|, |UxProjects(ps)|)
  }

  /** The section is numbered 1, 2, … without gaps or repeats. */
  lemma NumberingRunsFromOne(ps: seq<PublicProject>)
    ensures forall i :: 0 <= i < |Numbering(ps)| ==>
      Numbering(ps)[i] == ProjectNumber(i + 1) && DecimalValue(Numbering(ps)[i]) == i + 1
    ensures forall i, j :: 0 <= i < j < |Numbering(ps)| ==> Numbering(ps)[i] != Numbering(ps)[j]
  {
    var r := Numbering(ps);
    var fe := |FrontendProjects(ps)|;
    forall i | 0 <= i < |r| ensures r[i] == ProjectNumber(i + 1) && DecimalValue(r[i]) == i + 1 {
      if i >= fe {
        assert r[i] == Numbers(fe, |UxProjects(ps)|)[i - fe];
      }
      ProjectNumberValue(i + 1);
    }
  }
}
