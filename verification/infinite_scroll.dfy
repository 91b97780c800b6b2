/**
 * `InfiniteScroll`: a grid of image tiles inside a smooth-scrolling container.
 *
 * The tile list is `Array(repeat).fill(images).flat()`, mapped to tiles keyed
 * by position with 1-based alt numbers. The container and grid classes come
 * from two variant tables with defaults. The smooth-scrolling engine and its
 * frame loop are not part of this model.
 */
module InfiniteScroll {
  import opened Wrappers

  // ---------------------------------------------------------------------------
  // The tile list
  // ---------------------------------------------------------------------------

  /** `repeat` when the prop is left out. */
  const DefaultRepeat: int := 2

  /** `imageHeight` when the prop is left out. */
  const DefaultImageHeight: string := "31vh"

  /** The largest length `Array(n)` accepts (2^32 - 1). */
  const MaxArrayLength: int := 0xFFFF_FFFF

  /** `Array(n)` throws a RangeError for a length it cannot hold. */
  datatype ScrollError = InvalidArrayLength

  /** `Array(n).fill(images)`: `n` slots, each holding the image list. */
  function Fill(images: seq<string>, n: nat): (slots: seq<seq<string>>)
    ensures |slots| == n
    ensures forall i :: 0 <= i < n ==> slots[i] == images
  {
    seq(n, _ => images)
  }

  /** `.flat()`: the slots' lists joined end to end. */
  function Flat(slots: seq<seq<string>>): seq<string>
    decreases |slots|
  {
    if slots == [] then [] else slots[0] + Flat(slots[1..])
  }

  /** `n` copies of the image list joined end to end have `n * |images|`
      entries, and entry `i` is image `i mod |images|`. */
  lemma {:induction false} RepeatedImagesAt(images: seq<string>, n: nat)
    ensures |Flat(Fill(images, n))| == n * |images|
    ensures forall i :: 0 <= i < n * |images| ==> Flat(Fill(images, n))[i] == images[i % |images|]
  {
    if n > 0 {
      var rest := Flat(Fill(images, n - 1));
      RepeatedImagesAt(images, n - 1);
      assert Fill(images, n)[1..] == Fill(images, n - 1);
      assert Flat(Fill(images, n)) == images + rest;
      assert n * |images| == |images| + (n - 1) * |images|;
      forall i | 0 <= i < n * |images|
        ensures (images + rest)[i] == images[i % |images|]
      {
        if i < |images| {
          DivModUnique(i, |images|, 0, i);
        } else {
          var j := i - |images|;
          var q, r := j / |images|, j % |images|;
          assert i == (q + 1) * |images| + r;
          DivModUnique(i, |images|, q + 1, r);
        }
      }
    }
  }

  /** `d * m >= m` for a positive `d`. */
  lemma {:induction false} MulAtLeast(d: int, m: int)
    requires d >= 1 && m > 0
    ensures d * m >= m
  {
    if d > 1 {
      MulAtLeast(d - 1, m);
      assert d * m == (d - 1) * m + m;
    }
  }

  /** Quotient and remainder are unique. */
  lemma DivModUnique(x: int, m: int, q: int, r: int)
    requires m > 0 && 0 <= r < m && x == q * m + r
    ensures x % m == r && x / m == q
  {
    var q', r' := x / m, x % m;
    assert x == q' * m + r' && 0 <= r' < m;
    assert (q - q') * m == r' - r;
    if q > q' {
      MulAtLeast(q - q', m);
      assert false;
    } else if q < q' {
      MulAtLeast(q' - q, m);
      assert false;
    }
  }

  /** One tile: its React key, its image, and the number in its alt text
      ("infinite scroll image <altNumber>"). */
  datatype Tile = Tile(key: nat, src: string, altNumber: nat)

  /** The tile list for a `repeat` value, or the RangeError `Array(repeat)`
      throws. */
  function Tiles(images: seq<string>, repeat: int): (tiles: Result<seq<Tile>, ScrollError>)
    ensures tiles.Err? <==> repeat < 0 || repeat > MaxArrayLength
  {
    if repeat < 0 || repeat > MaxArrayLength then
      Err(InvalidArrayLength)
    else
      var srcs := Flat(Fill(images, repeat));
      Ok(seq(|srcs|, i requires 0 <= i < |srcs| => Tile(i, srcs[i], i + 1)))
  }

  /** Each tile's height: the `imageHeight` prop, 31vh when left out. */
  function TileHeight(imageHeight: Option<string>): (height: string)
    ensures imageHeight.None? ==> height == "31vh"
    ensures imageHeight.Some? ==> height == imageHeight.value
  {
    imageHeight.GetOr(DefaultImageHeight)
  }

  /** The tile list for the `repeat` prop, which defaults to 2. */
  function TilesFor(images: seq<string>, repeat: Option<int>): (tiles: Result<seq<Tile>, ScrollError>)
    ensures repeat.None? ==> tiles == Tiles(images, 2)
    ensures repeat.Some? ==> tiles == Tiles(images, repeat.value)
    ensures tiles.Err? <==> repeat.Some? && (repeat.value < 0 || repeat.value > MaxArrayLength)
  {
    Tiles(images, repeat.GetOr(DefaultRepeat))
  }

  /** A valid `repeat` gives `repeat * |images|` tiles; tile `i` shows image
      `i mod |images|`, has key `i` and alt number `i + 1`. */
  lemma TileListShape(images: seq<string>, repeat: int)
    requires 0 <= repeat <= MaxArrayLength
    ensures Tiles(images, repeat).Ok?
    ensures |Tiles(images, repeat).value| == repeat * |images|
    ensures forall i :: 0 <= i < |Tiles(images, repeat).value| ==>
      Tiles(images, repeat).value[i] == Tile(i, images[i % |images|], i + 1)
  {
    RepeatedImagesAt(images, repeat);
  }

  /** No repeat or no images: no tiles. */
  lemma TileListEmpty(images: seq<string>, repeat: int)
    requires 0 <= repeat <= MaxArrayLength && (repeat == 0 || images == [])
    ensures Tiles(images, repeat) == Ok([])
  {
    TileListShape(images, repeat);
  }

  /** Tile `c * |images| + k` is image `k` in copy `c`: the list is `repeat`
      whole copies of the images, in order. */
  lemma TileListIsCopies(images: seq<string>, repeat: int, c: nat, k: nat)
    requires 0 <= repeat <= MaxArrayLength && c < repeat && k < |images|
    ensures c * |images| + k < |Tiles(images, repeat).value|
    ensures Tiles(images, repeat).value[c * |images| + k].src == images[k]
  {
    TileListShape(images, repeat);
    MulAtLeast(repeat - c, |images|);
    assert (repeat - c) * |images| == repeat * |images| - c * |images|;
    DivModUnique(c * |images| + k, |images|, c, k);
  }

  /** Keys are pairwise distinct; alt numbers are pairwise distinct, each in
      1..n, and increase along the list. */
  lemma KeysAndAltNumbersDistinct(images: seq<string>, repeat: int)
    requires 0 <= repeat <= MaxArrayLength
    ensures forall i, j :: 0 <= i < j < |Tiles(images, repeat).value| ==>
      Tiles(images, repeat).value[i].key != Tiles(images, repeat).value[j].key
      && Tiles(images, repeat).value[i].altNumber < Tiles(images, repeat).value[j].altNumber
    ensures forall i :: 0 <= i < |Tiles(images, repeat).value| ==>
      1 <= Tiles(images, repeat).value[i].altNumber <= |Tiles(images, repeat).value|
  {
    TileListShape(images, repeat);
  }

  /** Left out, `repeat` is 2: two copies of the images. */
  lemma DefaultRepeatIsTwoCopies(images: seq<string>)
    ensures TilesFor(images, None).Ok?
    ensures |TilesFor(images, None).value| == 2 * |images|
    ensures forall i :: 0 <= i < 2 * |images| ==>
      TilesFor(images, None).value[i] == Tile(i, images[i % |images|], i + 1)
  {
    TileListShape(images, 2);
  }

  /** A negative repeat throws instead of drawing anything. */
  lemma NegativeRepeatThrows(images: seq<string>)
    ensures TilesFor(images, Some(-1)) == Err(InvalidArrayLength)
  {
  }

  // ---------------------------------------------------------------------------
  // Variant tables
  // ---------------------------------------------------------------------------

  datatype Size = SizeDefault | SizeSm | SizeLg
  datatype Padding = PaddingDefault | PaddingNone | PaddingSm | PaddingLg
  datatype Gap = GapDefault | GapSm | GapLg

  /** The column counts the grid table knows. */
  type ColumnCount = n: int | 2 <= n <= 4 witness 3

  const ContainerBase := "relative z-10 overflow-hidden scroll-auto"
  const GridBase := "scroll-content grid"
  const DefaultColumns: ColumnCount := 3

  function SizeClass(s: Size): string {
    match s
    case SizeDefault => "h-[70vh]"
    case SizeSm => "h-[50vh]"
    case SizeLg => "h-[90vh]"
  }

  function PaddingClass(p: Padding): string {
    match p
    case PaddingDefault => "p-8"
    case PaddingNone => "p-0"
    case PaddingSm => "p-4"
    case PaddingLg => "p-12"
  }

  function ColumnsClass(n: ColumnCount): string {
    if n == 2 then "grid-cols-2" else if n == 3 then "grid-cols-3" else "grid-cols-4"
  }

  function GapClass(g: Gap): string {
    match g
    case GapDefault => "gap-[2vh]"
    case GapSm => "gap-[1vh]"
    case GapLg => "gap-[3vh]"
  }

  /** The container's classes: the base, then the size's and the padding's.
      A variant left out takes its default, height 70vh and padding p-8. */
  function ContainerClasses(size: Option<Size>, padding: Option<Padding>): (classes: seq<string>)
    ensures |classes| == 3 && classes[0] == ContainerBase
    ensures size.None? ==> classes[1] == "h-[70vh]"
    ensures size.Some? ==> classes[1] == SizeClass(size.value)
    ensures padding.None? ==> classes[2] == "p-8"
    ensures padding.Some? ==> classes[2] == PaddingClass(padding.value)
  {
    [ContainerBase, SizeClass(size.GetOr(SizeDefault)), PaddingClass(padding.GetOr(PaddingDefault))]
  }

  /** The grid's classes: the base, then the columns' and the gap's. A
      variant left out takes its default, three columns and gap 2vh. */
  function GridClasses(columns: Option<ColumnCount>, gap: Option<Gap>): (classes: seq<string>)
    ensures |classes| == 3 && classes[0] == GridBase
    ensures columns.None? ==> classes[1] == "grid-cols-3"
    ensures columns.Some? ==> classes[1] == ColumnsClass(columns.value)
    ensures gap.None? ==> classes[2] == "gap-[2vh]"
    ensures gap.Some? ==> classes[2] == GapClass(gap.value)
  {
    [GridBase, ColumnsClass(columns.GetOr(DefaultColumns)), GapClass(gap.GetOr(GapDefault))]
  }

  /** Every key of each table has a class of its own, so the class drawn
      determines the variant chosen. */
  lemma VariantTablesInjective(s1: Size, s2: Size, p1: Padding, p2: Padding,
                               c1: ColumnCount, c2: ColumnCount, g1: Gap, g2: Gap)
    ensures SizeClass(s1) == SizeClass(s2) ==> s1 == s2
    ensures PaddingClass(p1) == PaddingClass(p2) ==> p1 == p2
    ensures ColumnsClass(c1) == ColumnsClass(c2) ==> c1 == c2
    ensures GapClass(g1) == GapClass(g2) ==> g1 == g2
  {
  }

  /** A variant given explicitly is the one drawn; one left out is the
      default. */
  lemma ExplicitVariantWins(size: Option<Size>, padding: Option<Padding>, s: Size, p: Padding)
    ensures ContainerClasses(size, padding)[1] == SizeClass(s) <==> size.GetOr(SizeDefault) == s
    ensures ContainerClasses(size, padding)[2] == PaddingClass(p) <==> padding.GetOr(PaddingDefault) == p
  {
  }
}
