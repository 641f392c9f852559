/**
 * The slide interleaving of utils/pptx_tools.py over an abstract deck.
 *
 * A deck is the ordered list of slide ids the presentation keeps (its slide id list)
 * together with the shapes placed on each slide. Lengths are EMU (English Metric
 * Units, 914400 per inch), the unit the presentation format stores.
 */
module PptxTools {
  import opened Strings
  import opened PosixPath

  /** A shape's box: its offset from the slide's top-left corner and its size, in EMU. */
  datatype Geometry = Geometry(left: int, top: int, width: int, height: int)

  /** The shapes the program adds: a text box holding paragraphs, and a picture with its image file. */
  datatype Shape =
    | TextBox(box: Geometry, paragraphs: seq<string>)
    | Picture(box: Geometry, image: string)

  /** `Inches(t / 10)`: every length the program uses is a whole number of tenths of an inch. */
  function Tenths(t: int): int
  {
    t * 91440
  }

  /** The page-number box: 1.2 in left of and 0.5 in above the point (8.5 in, 7.5 in), 1 in by 0.4 in. */
  function PageNumberBox(): (g: Geometry)
    ensures g == Geometry(6675120, 6400800, 914400, 365760)
  {
    Geometry(Tenths(85) - Tenths(12), Tenths(75) - Tenths(5), Tenths(10), Tenths(4))
  }

  /** The picture box of a companion slide: at (1 in, 1 in), 7.5 in by 5.5 in. */
  function PictureBox(): (g: Geometry)
    ensures g == Geometry(914400, 914400, 6858000, 5029200)
  {
    Geometry(Tenths(10), Tenths(10), Tenths(75), Tenths(55))
  }

  /**
   * The text box `add_page_number` adds for page `n`. A new text frame holds one empty
   * paragraph; `add_paragraph` appends a second one, which receives the label.
   */
  function PageLabel(n: int): Shape
  {
    TextBox(PageNumberBox(), ["", "Page " + IntToString(n)])
  }

  /** A page label shows its page number: different pages get different labels. */
  lemma PageLabelInjective(a: int, b: int)
    requires PageLabel(a) == PageLabel(b)
    ensures a == b
  {
    var la := "Page " + IntToString(a);
    var lb := "Page " + IntToString(b);
    assert la == PageLabel(a).paragraphs[1];
    assert la[5..] == IntToString(a) && lb[5..] == IntToString(b);
    IntToStringInjective(a, b);
  }

  /** The placeholder image file of the slide at live index `slideIdx`: `<tmpdir>/slide_<slideIdx+1>.png`. */
  function ImagePath(tmpdir: string, slideIdx: int): string
  {
    Join(tmpdir, "slide_" + IntToString(slideIdx + 1) + ".png")
  }

  /** The image lies in the temporary directory and is named after the live index, one-based. */
  lemma ImagePathParts(tmpdir: string, slideIdx: int)
    requires tmpdir == [] || AllSlashes(tmpdir) || tmpdir[|tmpdir| - 1] != '/'
    ensures Basename(ImagePath(tmpdir, slideIdx)) == "slide_" + IntToString(slideIdx + 1) + ".png"
    ensures Dirname(ImagePath(tmpdir, slideIdx)) == tmpdir
  {
    var name := "slide_" + IntToString(slideIdx + 1) + ".png";
    assert '/' !in name by {
      forall i | 0 <= i < |name| ensures name[i] != '/' {
        if 6 <= i < 6 + |IntToString(slideIdx + 1)| {
          assert name[i] == IntToString(slideIdx + 1)[i - 6];
        }
      }
    }
    BasenameOfJoin(tmpdir, name);
    DirnameOfJoin(tmpdir, name);
  }

  /** Different live indices give different image file names. */
  lemma ImageNamesDistinct(i: int, j: int)
    requires i != j
    ensures "slide_" + IntToString(i + 1) + ".png" != "slide_" + IntToString(j + 1) + ".png"
  {
    var ni := "slide_" + IntToString(i + 1) + ".png";
    var nj := "slide_" + IntToString(j + 1) + ".png";
    if ni == nj {
      assert ni[6..|ni| - 4] == IntToString(i + 1);
      assert nj[6..|nj| - 4] == IntToString(j + 1);
      IntToStringInjective(i + 1, j + 1);
    }
  }

  /** Different live indices give different image paths, so no placeholder overwrites another. */
  lemma ImagePathsDistinct(tmpdir: string, i: int, j: int)
    requires i != j
    ensures ImagePath(tmpdir, i) != ImagePath(tmpdir, j)
  {
    var ni := "slide_" + IntToString(i + 1) + ".png";
    var nj := "slide_" + IntToString(j + 1) + ".png";
    assert ni[0] == 's' && nj[0] == 's';
    ImageNamesDistinct(i, j);
    if ImagePath(tmpdir, i) == ImagePath(tmpdir, j) {
      JoinInjective(tmpdir, ni, nj);
    }
  }

  // ---------------------------------------------------------------------------
  // The slide id list
  // ---------------------------------------------------------------------------

  predicate Distinct(s: seq<nat>)
  {
    forall i, j :: 0 <= i < j < |s| ==> s[i] != s[j]
  }

  function Min(a: int, b: int): int
  {
    if a <= b then a else b
  }

  /**
   * `lst.insert(pos, lst[-1])` on an XML child list: the last element is moved so that it
   * stands before the element that was at `pos`; at or past the last position nothing moves.
   */
  function InsertLast(s: seq<nat>, pos: nat): (r: seq<nat>)
    requires |s| > 0
    ensures |r| == |s|
    ensures r[Min(pos, |s| - 1)] == s[|s| - 1]
    ensures r[..Min(pos, |s| - 1)] + r[Min(pos, |s| - 1) + 1..] == s[..|s| - 1]
  {
    if pos >= |s| - 1 then s
    else
      var r := s[..pos] + [s[|s| - 1]] + s[pos..|s| - 1];
      assert r[..pos] == s[..pos] && r[pos + 1..] == s[pos..|s| - 1];
      r
  }

  /** Moving the last element only reorders the list. */
  lemma InsertLastPermutes(s: seq<nat>, pos: nat)
    requires |s| > 0
    ensures multiset(InsertLast(s, pos)) == multiset(s)
  {
    if pos < |s| - 1 {
      InsertLastSplit(s, pos);
      SwapLastTwo(s[..pos], [s[|s| - 1]], s[pos..|s| - 1]);
    }
  }

  /** Before the move the list is `front + back + [last]`; after it, `front + [last] + back`. */
  lemma InsertLastSplit(s: seq<nat>, pos: nat)
    requires |s| > 0 && pos < |s| - 1
    ensures InsertLast(s, pos) == s[..pos] + [s[|s| - 1]] + s[pos..|s| - 1]
    ensures s == s[..pos] + s[pos..|s| - 1] + [s[|s| - 1]]
  {
  }

  /** Swapping the last two parts of a three-part list keeps its elements. */
  lemma SwapLastTwo(a: seq<nat>, b: seq<nat>, c: seq<nat>)
    ensures multiset(a + b + c) == multiset(a + c + b)
  {
    calc {
      multiset(a + b + c);
      multiset(a) + multiset(b) + multiset(c);
      multiset(a) + multiset(c) + multiset(b);
      multiset(a + c + b);
    }
  }

  /** The index in `s` of the element that the move puts at index `i` (for `pos < |s| - 1`). */
  function MovedFrom(n: nat, pos: nat, i: nat): int
  {
    if i < pos then i else if i == pos then n - 1 else i - 1
  }

  /** Where each element stands after the move. */
  lemma InsertLastAt(s: seq<nat>, pos: nat, i: nat)
    requires |s| > 0 && pos < |s| - 1 && i < |s|
    ensures 0 <= MovedFrom(|s|, pos, i) < |s| && InsertLast(s, pos)[i] == s[MovedFrom(|s|, pos, i)]
  {
    var a, last, b := s[..pos], [s[|s| - 1]], s[pos..|s| - 1];
    InsertLastSplit(s, pos);
    if i > pos {
      assert (a + last + b)[i] == b[i - pos - 1];
    }
  }

  /** Moving the last element keeps a list of distinct ids distinct. */
  lemma InsertLastDistinct(s: seq<nat>, pos: nat)
    requires |s| > 0 && Distinct(s)
    ensures Distinct(InsertLast(s, pos))
  {
    var r := InsertLast(s, pos);
    if pos < |s| - 1 {
      forall i, j | 0 <= i < j < |r|
        ensures r[i] != r[j]
      {
        InsertLastAt(s, pos, i);
        InsertLastAt(s, pos, j);
        assert MovedFrom(|s|, pos, i) != MovedFrom(|s|, pos, j);
      }
    }
  }

  /** The first `k` originals, each followed by its new slide: `o0, n0, o1, n1, …, o(k-1), n(k-1)`. */
  function Pairs(orig: seq<nat>, k: nat, base: nat): (r: seq<nat>)
    requires k <= |orig|
    ensures |r| == 2 * k
  {
    if k == 0 then [] else Pairs(orig, k - 1, base) + [orig[k - 1], base + k - 1]
  }

  /**
   * The live slide list after `k` rounds of the loop, from the original list `orig` and the
   * first new id `base`: `o0, n0, o1, n1, …, o(k-1), n(k-1), ok, …, o(N-1)`.
   */
  function Interleaved(orig: seq<nat>, k: nat, base: nat): (r: seq<nat>)
    requires k <= |orig|
    ensures |r| == |orig| + k
  {
    Pairs(orig, k, base) + orig[k..]
  }

  /** Original `j` stands at index `2j` of the pairs, its new slide right after it. */
  lemma {:induction false} PairsAt(orig: seq<nat>, k: nat, base: nat, j: nat)
    requires j < k <= |orig|
    ensures Pairs(orig, k, base)[2 * j] == orig[j] && Pairs(orig, k, base)[2 * j + 1] == base + j
  {
    if j < k - 1 {
      PairsAt(orig, k - 1, base, j);
    }
  }

  /** Every id in the pairs is an original or one of the new ids below `base + k`. */
  lemma {:induction false} PairsBelow(orig: seq<nat>, k: nat, base: nat)
    requires k <= |orig|
    requires forall j :: 0 <= j < |orig| ==> orig[j] < base
    ensures forall i :: 0 <= i < 2 * k ==> Pairs(orig, k, base)[i] < base + k
  {
    if k > 0 {
      PairsBelow(orig, k - 1, base);
    }
  }

  /** Where each slide stands after `k` rounds. */
  lemma InterleavedAt(orig: seq<nat>, k: nat, base: nat)
    requires k <= |orig|
    ensures |Interleaved(orig, k, base)| == |orig| + k
    ensures forall j :: 0 <= j < k ==> Interleaved(orig, k, base)[2 * j] == orig[j]
    ensures forall j :: 0 <= j < k ==> Interleaved(orig, k, base)[2 * j + 1] == base + j
    ensures Interleaved(orig, k, base)[2 * k..] == orig[k..]
  {
    var r := Interleaved(orig, k, base);
    forall j | 0 <= j < k
      ensures r[2 * j] == orig[j] && r[2 * j + 1] == base + j
    {
      PairsAt(orig, k, base, j);
    }
  }

  /** Before the first round the list is the original one. */
  lemma InterleavedStart(orig: seq<nat>, base: nat)
    ensures Interleaved(orig, 0, base) == orig
  {
    assert orig[0..] == orig;
  }

  /**
   * One round: appending the new slide `base + k` and moving it to live index `2k + 1`,
   * right after original `k`, gives the list after `k + 1` rounds.
   */
  lemma InterleaveStep(orig: seq<nat>, k: nat, base: nat)
    requires k < |orig|
    ensures InsertLast(Interleaved(orig, k, base) + [base + k], 2 * k + 1) == Interleaved(orig, k + 1, base)
  {
    var p := Pairs(orig, k, base);
    var s := Interleaved(orig, k, base) + [base + k];
    assert orig[k..] == [orig[k]] + orig[k + 1..];
    assert s == (p + [orig[k]]) + orig[k + 1..] + [base + k];
    assert Interleaved(orig, k + 1, base) == (p + [orig[k]]) + [base + k] + orig[k + 1..];
    if k + 1 < |orig| {
      InsertLastSplit(s, 2 * k + 1);
      assert s[..2 * k + 1] == p + [orig[k]];
      assert s[2 * k + 1..|s| - 1] == orig[k + 1..];
    }
  }

  /** Adding an id not yet listed keeps a list distinct. */
  lemma AppendDistinct(s: seq<nat>, x: nat)
    requires Distinct(s) && forall i :: 0 <= i < |s| ==> s[i] != x
    ensures Distinct(s + [x])
  {
  }

  /** After `k` rounds every listed id is below `base + k`. */
  lemma InterleavedBelow(orig: seq<nat>, k: nat, base: nat)
    requires k <= |orig|
    requires forall j :: 0 <= j < |orig| ==> orig[j] < base
    ensures forall i :: 0 <= i < |orig| + k ==> Interleaved(orig, k, base)[i] < base + k
  {
    PairsBelow(orig, k, base);
    var u := Interleaved(orig, k, base);
    forall i | 0 <= i < |u|
      ensures u[i] < base + k
    {
      if i >= 2 * k {
        assert u[i] == orig[i - k];
      }
    }
  }

  /** Originals below `base` and distinct, new ids from `base` on: the live list has no repeated id. */
  lemma {:induction false} InterleavedDistinct(orig: seq<nat>, k: nat, base: nat)
    requires k <= |orig| && Distinct(orig)
    requires forall j :: 0 <= j < |orig| ==> orig[j] < base
    ensures Distinct(Interleaved(orig, k, base))
  {
    if k == 0 {
      InterleavedStart(orig, base);
    } else {
      var u := Interleaved(orig, k - 1, base);
      InterleavedDistinct(orig, k - 1, base);
      InterleavedBelow(orig, k - 1, base);
      AppendDistinct(u, base + (k - 1));
      InsertLastDistinct(u + [base + (k - 1)], 2 * (k - 1) + 1);
      InterleaveStep(orig, k - 1, base);
    }
  }

  /**
   * The number of rounds for `n` originals is `ceil(n / 2)`: the loop stops at the first even
   * live index not below `n`. The final list then has `n + ceil(n / 2)` slides, which is fewer
   * than `2n` as soon as there are two originals, and the originals from `ceil(n / 2)` on keep
   * their places at the end without companions.
   */
  lemma FinalDeck(orig: seq<nat>, base: nat)
    ensures var h := (|orig| + 1) / 2;
      2 * h >= |orig| && (h == 0 || 2 * (h - 1) < |orig|)
      && |Interleaved(orig, h, base)| == |orig| + h
      && Interleaved(orig, h, base)[2 * h..] == orig[h..]
      && (|orig| >= 2 ==> |Interleaved(orig, h, base)| < 2 * |orig|)
  {
    InterleavedAt(orig, (|orig| + 1) / 2, base);
  }

  // ---------------------------------------------------------------------------
  // The deck
  // ---------------------------------------------------------------------------

  /** A presentation: the live slide id list, the shapes on each slide and the next free slide id. */
  class Deck {
    var order: seq<nat>
    var shapes: map<nat, seq<Shape>>
    var nextId: nat

    /** Every listed slide has a shape list, no id is listed twice, and every id in use is below `nextId`. */
    ghost predicate Valid()
      reads this
    {
      (forall i :: 0 <= i < |order| ==> order[i] in shapes)
      && (forall id :: id in shapes ==> id < nextId)
      && Distinct(order)
    }

    /** A deck whose slides carry the given shape lists, with ids 0, 1, … in order. */
    constructor (slides: seq<seq<Shape>>)
      ensures Valid()
      ensures |order| == |slides| && nextId == |slides|
      ensures forall i :: 0 <= i < |slides| ==> order[i] == i && shapes[i] == slides[i]
    {
      order := seq(|slides|, i requires 0 <= i < |slides| => i);
      shapes := map i | 0 <= i < |slides| :: slides[i];
      nextId := |slides|;
    }

    /** `add_slide`: a new empty slide with a fresh id at the end of the list. */
    method AddSlide() returns (id: nat)
      requires Valid()
      modifies this
      ensures Valid()
      ensures id == old(nextId) && id !in old(shapes)
      ensures order == old(order) + [id]
      ensures shapes == old(shapes)[id := []]
      ensures nextId == old(nextId) + 1
    {
      id := nextId;
      order := order + [id];
      shapes := shapes[id := []];
      nextId := nextId + 1;
    }

    /** `_sldIdLst.insert(pos, _sldIdLst[-1])`: move the last slide to live index `pos`. */
    method MoveLastTo(pos: nat)
      requires Valid() && |order| > 0
      modifies this
      ensures Valid()
      ensures order == InsertLast(old(order), pos)
      ensures shapes == old(shapes) && nextId == old(nextId)
    {
      InsertLastPermutes(order, pos);
      InsertLastDistinct(order, pos);
      var r := InsertLast(order, pos);
      forall i | 0 <= i < |r|
        ensures r[i] in shapes
      {
        assert r[i] in multiset(order);
      }
      order := r;
    }

    /** `slide.shapes.add_…`: place `shape` on top of slide `id`. */
    method AddShape(id: nat, shape: Shape)
      requires Valid() && id in shapes
      modifies this
      ensures Valid()
      ensures shapes == old(shapes)[id := old(shapes)[id] + [shape]]
      ensures order == old(order) && nextId == old(nextId)
    {
      shapes := shapes[id := shapes[id] + [shape]];
    }
  }

  /** `add_page_number(slide, page_num)`: the page label is added to the slide and nothing else changes. */
  method AddPageNumber(deck: Deck, slide: nat, pageNum: int)
    requires deck.Valid() && slide in deck.shapes
    modifies deck
    ensures deck.Valid()
    ensures deck.shapes == old(deck.shapes)[slide := old(deck.shapes)[slide] + [PageLabel(pageNum)]]
    ensures deck.order == old(deck.order) && deck.nextId == old(deck.nextId)
  {
    var left := Tenths(85) - Tenths(12);
    var top := Tenths(75) - Tenths(5);
    var width := Tenths(10);
    var height := Tenths(4);
    var paragraphs := [""];
    paragraphs := paragraphs + ["Page " + IntToString(pageNum)];
    assert TextBox(Geometry(left, top, width, height), paragraphs) == PageLabel(pageNum);
    deck.AddShape(slide, TextBox(Geometry(left, top, width, height), paragraphs));
  }

  /** After `k` rounds the slide list is interleaved and `k` new ids are in use. */
  ghost predicate RoundsOrder(order: seq<nat>, nextId: nat, orig: seq<nat>, base: nat, k: nat)
  {
    k <= |orig| && order == Interleaved(orig, k, base) && nextId == base + k
  }

  /** After `k` rounds the shape map knows the old slides and the new ones `base..base+k-1`. */
  ghost predicate RoundsKeys(shapes: map<nat, seq<Shape>>, before: map<nat, seq<Shape>>, base: nat, k: nat)
  {
    forall id :: id in shapes <==> id in before || base <= id < base + k
  }

  /** Slides that are not in the list keep their shapes. */
  ghost predicate RoundsOthers(shapes: map<nat, seq<Shape>>, before: map<nat, seq<Shape>>, orig: seq<nat>)
  {
    forall id :: id in before && id !in orig ==> id in shapes && shapes[id] == before[id]
  }

  /** Originals `0..k-1` carry one more shape, the page labels `1..k`; the others are unchanged. */
  ghost predicate RoundsLabels(shapes: map<nat, seq<Shape>>, before: map<nat, seq<Shape>>, orig: seq<nat>, k: nat,
                               stamp: int -> Shape)
  {
    forall j :: 0 <= j < |orig| ==> orig[j] in shapes && Labelled(shapes, before, orig, j, k, stamp)
  }

  /** Original `j` carries the shapes it had plus, once its round (`j < k`) has run, its page label. */
  ghost predicate Labelled(shapes: map<nat, seq<Shape>>, before: map<nat, seq<Shape>>, orig: seq<nat>, j: nat, k: nat,
                           stamp: int -> Shape)
    requires j < |orig|
  {
    orig[j] in shapes && orig[j] in before
    && shapes[orig[j]] == before[orig[j]] + (if j < k then [stamp(j + 1)] else [])
  }

  /** New slide `base + j` holds only the picture of the slide that stood at live index `2j`. */
  ghost predicate RoundsPictures(shapes: map<nat, seq<Shape>>, base: nat, k: nat, picture: int -> Shape)
  {
    forall j :: 0 <= j < k ==> PictureAt(shapes, base, j, picture)
  }

  /** New slide `base + j` holds only the picture of live index `2j`. */
  ghost predicate PictureAt(shapes: map<nat, seq<Shape>>, base: nat, j: nat, picture: int -> Shape)
  {
    base + j in shapes && shapes[base + j] == [picture(2 * j)]
  }

  /** The picture `add_picture` puts on the companion of the slide at live index `slideIdx`. */
  function CompanionPicture(tmpdir: string, slideIdx: int): Shape
  {
    Picture(PictureBox(), ImagePath(tmpdir, slideIdx))
  }

  /**
   * The deck after `k` rounds of the loop, started from the slide list `orig`, the shape
   * map `before` and the next free id `base`.
   */
  ghost predicate Rounds(order: seq<nat>, shapes: map<nat, seq<Shape>>, nextId: nat,
                         orig: seq<nat>, before: map<nat, seq<Shape>>, base: nat, k: nat,
                         stamp: int -> Shape, picture: int -> Shape)
  {
    RoundsOrder(order, nextId, orig, base, k)
    && RoundsKeys(shapes, before, base, k)
    && RoundsOthers(shapes, before, orig)
    && RoundsLabels(shapes, before, orig, k, stamp)
    && RoundsPictures(shapes, base, k, picture)
  }

  /** What a valid deck guarantees about its ids: distinct, listed in the shape map, below the next free id. */
  ghost predicate FreshAbove(orig: seq<nat>, before: map<nat, seq<Shape>>, base: nat)
  {
    Distinct(orig) && (forall j :: 0 <= j < |orig| ==> orig[j] in before)
    && forall id :: id in before ==> id < base
  }

  /** No round has run yet. */
  lemma RoundsStart(orig: seq<nat>, before: map<nat, seq<Shape>>, base: nat, stamp: int -> Shape, picture: int -> Shape)
    requires FreshAbove(orig, before, base)
    ensures Rounds(orig, before, base, orig, before, base, 0, stamp, picture)
  {
    InterleavedStart(orig, base);
  }

  /** The page label goes onto original `k`, which no other original and no new slide shares. */
  lemma LabelStep(shapes: map<nat, seq<Shape>>, before: map<nat, seq<Shape>>, orig: seq<nat>,
                  base: nat, k: nat, newId: nat, pic: seq<Shape>, stamp: int -> Shape)
    requires FreshAbove(orig, before, base) && k < |orig| && newId == base + k
    requires RoundsLabels(shapes, before, orig, k, stamp)
    ensures RoundsLabels(shapes[orig[k] := shapes[orig[k]] + [stamp(k + 1)]][newId := pic],
                         before, orig, k + 1, stamp)
  {
    var s1 := shapes[orig[k] := shapes[orig[k]] + [stamp(k + 1)]];
    var s2 := s1[newId := pic];
    var k1 := k + 1;
    forall j | 0 <= j < |orig|
      ensures orig[j] in s2 && Labelled(s2, before, orig, j, k1, stamp)
    {
      assert Labelled(shapes, before, orig, j, k, stamp);
      assert orig[j] in before && orig[j] < base;
      if j != k {
        assert orig[j] != orig[k];
      }
    }
  }

  /** The new slide `base + k` gets its picture; earlier new slides keep theirs. */
  lemma PictureStep(shapes: map<nat, seq<Shape>>, base: nat, k: nat, newId: nat, picture: int -> Shape,
                    old0: nat, s: seq<Shape>)
    requires old0 < base && newId == base + k
    requires RoundsPictures(shapes, base, k, picture)
    ensures RoundsPictures(shapes[old0 := s][newId := [picture(2 * k)]], base, k + 1, picture)
  {
    var s2 := shapes[old0 := s][newId := [picture(2 * k)]];
    forall j | 0 <= j < k + 1
      ensures PictureAt(s2, base, j, picture)
    {
      if j < k {
        assert PictureAt(shapes, base, j, picture);
      }
    }
  }

  /** Slides outside the list are untouched by a round. */
  lemma OthersStep(shapes: map<nat, seq<Shape>>, before: map<nat, seq<Shape>>, orig: seq<nat>,
                   base: nat, k: nat, newId: nat, s: seq<Shape>, pic: seq<Shape>)
    requires FreshAbove(orig, before, base) && k < |orig| && newId == base + k
    requires RoundsOthers(shapes, before, orig)
    ensures RoundsOthers(shapes[orig[k] := s][newId := pic], before, orig)
  {
  }

  /** Appending new slide `base + k` and moving it after original `k` interleaves one more slide. */
  lemma OrderStep(order: seq<nat>, nextId: nat, orig: seq<nat>, base: nat, k: nat)
    requires k < |orig|
    requires RoundsOrder(order, nextId, orig, base, k)
    ensures RoundsOrder(InsertLast(order + [nextId], 2 * k + 1), nextId + 1, orig, base, k + 1)
  {
    assert order + [nextId] == Interleaved(orig, k, base) + [base + k];
    InterleaveStep(orig, k, base);
  }

  /** A round adds exactly the new id to the shape map. */
  lemma KeysStep(shapes: map<nat, seq<Shape>>, before: map<nat, seq<Shape>>, base: nat, k: nat,
                 id: nat, newId: nat, s: seq<Shape>, pic: seq<Shape>)
    requires RoundsKeys(shapes, before, base, k) && id in shapes && newId == base + k
    ensures RoundsKeys(shapes[id := s][newId := pic], before, base, k + 1)
  {
  }

  /**
   * One round of the loop body: label original `k` with page `k + 1`, append new slide
   * `base + k`, move it right after original `k` and give it its picture.
   */
  lemma RoundStep(order: seq<nat>, shapes: map<nat, seq<Shape>>, nextId: nat,
                  orig: seq<nat>, before: map<nat, seq<Shape>>, base: nat, k: nat,
                  stamp: int -> Shape, picture: int -> Shape)
    requires FreshAbove(orig, before, base) && k < |orig|
    requires Rounds(order, shapes, nextId, orig, before, base, k, stamp, picture)
    ensures Rounds(InsertLast(order + [nextId], 2 * k + 1),
                   shapes[orig[k] := shapes[orig[k]] + [stamp(k + 1)]][nextId := [picture(2 * k)]],
                   nextId + 1, orig, before, base, k + 1, stamp, picture)
  {
    OrderStep(order, nextId, orig, base, k);
    var pic := [picture(2 * k)];
    var labelled := shapes[orig[k]] + [stamp(k + 1)];
    KeysStep(shapes, before, base, k, orig[k], nextId, labelled, pic);
    LabelStep(shapes, before, orig, base, k, nextId, pic, stamp);
    OthersStep(shapes, before, orig, base, k, nextId, labelled, pic);
    PictureStep(shapes, base, k, nextId, picture, orig[k], labelled);
  }

  /** Before round `k` the live slide at index `2k` is original `k`. */
  lemma RoundStarts(order: seq<nat>, nextId: nat, orig: seq<nat>, base: nat, k: nat)
    requires k < |orig| && RoundsOrder(order, nextId, orig, base, k)
    ensures 2 * k < |order| && order[2 * k] == orig[k]
  {
    InterleavedAt(orig, k, base);
  }

  /** The state `Round` leaves behind after `k` rounds of `process_presentation` is that of `k + 1` rounds. */
  lemma RoundDone(order0: seq<nat>, shapes0: map<nat, seq<Shape>>, next0: nat,
                  order1: seq<nat>, shapes1: map<nat, seq<Shape>>, next1: nat,
                  orig: seq<nat>, before: map<nat, seq<Shape>>, base: nat, k: nat,
                  tmpdir: string, slideIdx: nat, pageNum: int)
    requires FreshAbove(orig, before, base) && k < |orig|
    requires Rounds(order0, shapes0, next0, orig, before, base, k, PageLabel, (i => CompanionPicture(tmpdir, i)))
    requires slideIdx == 2 * k && pageNum == k + 1 && slideIdx < |order0|
    requires order1 == InsertLast(order0 + [next0], slideIdx + 1)
    requires shapes1 == shapes0[order0[slideIdx] := shapes0[order0[slideIdx]] + [PageLabel(pageNum)]]
                               [next0 := [CompanionPicture(tmpdir, slideIdx)]]
    requires next1 == next0 + 1
    ensures Rounds(order1, shapes1, next1, orig, before, base, k + 1, PageLabel, (i => CompanionPicture(tmpdir, i)))
  {
    RoundStarts(order0, next0, orig, base, k);
    RoundStep(order0, shapes0, next0, orig, before, base, k, PageLabel, (i => CompanionPicture(tmpdir, i)));
    assert CompanionPicture(tmpdir, 2 * k) == (i => CompanionPicture(tmpdir, i))(2 * k);
  }

  /** The loop stops after `ceil(n / 2)` rounds for `n` originals. */
  lemma RoundsEnd(n: nat, k: nat)
    requires 2 * k <= n + 1 && 2 * k >= n
    ensures k == (n + 1) / 2
  {
  }

  /** A second update of the same key overrides the first. */
  lemma UpdateTwice<K, V>(m: map<K, V>, key: K, first: V, second: V)
    ensures m[key := first][key := second] == m[key := second]
  {
  }

  /**
   * One pass of the loop body of `process_presentation` at live index `slideIdx`: the slide
   * there gets page label `pageNum`, and a new slide holding the picture of that slide is
   * appended and moved right after it.
   */
  method Round(deck: Deck, tmpdir: string, slideIdx: nat, pageNum: int)
    requires deck.Valid() && slideIdx < |deck.order|
    modifies deck
    ensures deck.Valid()
    ensures deck.order == InsertLast(old(deck.order) + [old(deck.nextId)], slideIdx + 1)
    ensures deck.shapes == old(deck.shapes)[old(deck.order)[slideIdx] := old(deck.shapes)[old(deck.order)[slideIdx]] + [PageLabel(pageNum)]]
                                           [old(deck.nextId) := [CompanionPicture(tmpdir, slideIdx)]]
    ensures deck.nextId == old(deck.nextId) + 1
  {
    var slide := deck.order[slideIdx];
    AddPageNumber(deck, slide, pageNum);
    ghost var labelled := deck.shapes;
    var imgPath := ImagePath(tmpdir, slideIdx);
    var newSlide := deck.AddSlide();
    deck.MoveLastTo(slideIdx + 1);
    deck.AddShape(newSlide, Picture(PictureBox(), imgPath));
    assert [] + [Picture(PictureBox(), imgPath)] == [CompanionPicture(tmpdir, slideIdx)];
    UpdateTwice(labelled, newSlide, [], [CompanionPicture(tmpdir, slideIdx)]);
  }

  /**
   * `process_presentation`: stamp the live slide at every even index below the original
   * slide count with a running page number and put a new slide holding its placeholder
   * image right after it.
   *
   * With `n` original slides the loop makes `h = ceil(n / 2)` rounds (`Rounds`, `FinalDeck`):
   * original `j < h` gets page `j + 1` and is followed by new slide `base + j`, whose only
   * shape is the picture `slide_<2j+1>.png`; the remaining originals are unchanged.
   */
  method ProcessPresentation(deck: Deck, tmpdir: string)
    requires deck.Valid()
    modifies deck
    ensures deck.Valid()
    ensures Rounds(deck.order, deck.shapes, deck.nextId, old(deck.order), old(deck.shapes), old(deck.nextId),
                   (|old(deck.order)| + 1) / 2, PageLabel, (i => CompanionPicture(tmpdir, i)))
  {
    var origSlides := deck.order;
    var slideCount := |origSlides|;
    ghost var base := deck.nextId;
    ghost var before := deck.shapes;
    var slideIdx := 0;
    var pageNum := 1;
    ghost var k := 0;
    assert FreshAbove(origSlides, before, base);
    RoundsStart(origSlides, before, base, PageLabel, (i => CompanionPicture(tmpdir, i)));
    while slideIdx < slideCount
      invariant deck.Valid()
      invariant slideIdx == 2 * k && pageNum == k + 1 && slideIdx <= slideCount + 1
      invariant Rounds(deck.order, deck.shapes, deck.nextId, origSlides, before, base, k, PageLabel, (i => CompanionPicture(tmpdir, i)))
      decreases slideCount - slideIdx
    {
      ghost var order0, shapes0, next0 := deck.order, deck.shapes, deck.nextId;
      RoundStarts(order0, next0, origSlides, base, k);
      Round(deck, tmpdir, slideIdx, pageNum);
      RoundDone(order0, shapes0, next0, deck.order, deck.shapes, deck.nextId, origSlides, before, base, k,
                tmpdir, slideIdx, pageNum);
      slideIdx := slideIdx + 2;
      pageNum := pageNum + 1;
      k := k + 1;
    }
    RoundsEnd(slideCount, k);
  }

  /**
   * The loop as the program evidently intends it, bounded by the live length of the
   * interleaved list (twice the original count) instead of the original count: every
   * original slide `j` is stamped with page `j + 1` and followed by its companion.
   */
  method ProcessEverySlide(deck: Deck, tmpdir: string)
    requires deck.Valid()
    modifies deck
    ensures deck.Valid()
    ensures Rounds(deck.order, deck.shapes, deck.nextId, old(deck.order), old(deck.shapes), old(deck.nextId),
                   |old(deck.order)|, PageLabel, (i => CompanionPicture(tmpdir, i)))
  {
    var origSlides := deck.order;
    var slideCount := |origSlides|;
    ghost var base := deck.nextId;
    ghost var before := deck.shapes;
    var slideIdx := 0;
    var pageNum := 1;
    ghost var k := 0;
    assert FreshAbove(origSlides, before, base);
    RoundsStart(origSlides, before, base, PageLabel, (i => CompanionPicture(tmpdir, i)));
    while slideIdx < |deck.order|
      invariant deck.Valid()
      invariant slideIdx == 2 * k && pageNum == k + 1 && k <= slideCount
      invariant Rounds(deck.order, deck.shapes, deck.nextId, origSlides, before, base, k, PageLabel, (i => CompanionPicture(tmpdir, i)))
      decreases |deck.order| - slideIdx
    {
      ghost var order0, shapes0, next0 := deck.order, deck.shapes, deck.nextId;
      RoundStarts(order0, next0, origSlides, base, k);
      Round(deck, tmpdir, slideIdx, pageNum);
      RoundDone(order0, shapes0, next0, deck.order, deck.shapes, deck.nextId, origSlides, before, base, k,
                tmpdir, slideIdx, pageNum);
      slideIdx := slideIdx + 2;
      pageNum := pageNum + 1;
      k := k + 1;
    }
    assert k == slideCount;
  }

  /**
   * After a round for every original the list has `2n` slides, original `j` at live
   * index `2j` and its companion right after it.
   */
  lemma CompleteInterleaving(orig: seq<nat>, base: nat)
    ensures |Interleaved(orig, |orig|, base)| == 2 * |orig|
    ensures forall j :: 0 <= j < |orig| ==> Interleaved(orig, |orig|, base)[2 * j] == orig[j]
    ensures forall j :: 0 <= j < |orig| ==> Interleaved(orig, |orig|, base)[2 * j + 1] == base + j
  {
    InterleavedAt(orig, |orig|, base);
  }
}
