/** `merge_images` of the robot-order script: images stacked top to bottom on
    a canvas of fixed width, each centred horizontally. Images are reduced to
    their dimensions; pixels are not modelled. */
module ImageLayout {

  const DefaultPageWidth := 600

  datatype Size = Size(width: nat, height: nat)

  /** Where one image is pasted: its top-left corner, which may lie left of the canvas. */
  datatype Placement = Placement(x: int, y: int)

  datatype Canvas = Canvas(width: int, height: nat, placements: seq<Placement>)

  /** Python's `a // 2`: the quotient rounded towards minus infinity. */
  function FloorHalf(a: int): (q: int)
    ensures 2 * q <= a < 2 * q + 2
  {
    a / 2
  }

  /** The combined height of the images, front to back. */
  function TotalHeight(sizes: seq<Size>): nat
    decreases |sizes|
  {
    if |sizes| == 0 then 0 else sizes[0].height + TotalHeight(sizes[1..])
  }

  lemma {:induction false} TotalHeightAppend(sizes: seq<Size>, s: Size)
    ensures TotalHeight(sizes + [s]) == TotalHeight(sizes) + s.height
    decreases |sizes|
  {
    if |sizes| > 0 {
      assert (sizes + [s])[1..] == sizes[1..] + [s];
      TotalHeightAppend(sizes[1..], s);
    }
  }

  /** The paste loop from a state where the running offset is `y`: each image
      goes to `y` plus the heights of the images before it. */
  function PlaceFrom(sizes: seq<Size>, pageWidth: int, y: int): (ps: seq<Placement>)
    ensures |ps| == |sizes|
    ensures forall i :: 0 <= i < |sizes| ==> ps[i].y == y + TotalHeight(sizes[..i])
    ensures forall i :: 0 <= i < |sizes| ==> ps[i].x == FloorHalf(pageWidth - sizes[i].width)
    decreases |sizes|
  {
    if |sizes| == 0 then []
    else
      var rest := PlaceFrom(sizes[1..], pageWidth, y + sizes[0].height);
      assert forall i :: 1 <= i < |sizes| ==> sizes[..i][1..] == sizes[1..][..i - 1];
      [Placement(FloorHalf(pageWidth - sizes[0].width), y)] + rest
  }

  /** `merge_images(image_files, output_path, page_width)`: the canvas size and
      where each image is pasted. */
  function MergeImages(sizes: seq<Size>, pageWidth: int): (c: Canvas)
    ensures c.width == pageWidth
    ensures c.height == TotalHeight(sizes)
    ensures |c.placements| == |sizes|
    ensures forall i :: 0 <= i < |sizes| ==> c.placements[i].y == TotalHeight(sizes[..i])
    ensures forall i :: 0 <= i < |sizes| ==>
      2 * c.placements[i].x <= pageWidth - sizes[i].width < 2 * c.placements[i].x + 2
  {
    assert sizes[..|sizes|] == sizes;
    Canvas(pageWidth, TotalHeight(sizes), PlaceFrom(sizes, pageWidth, 0))
  }

  /** Consecutive images touch without overlapping, and every image ends inside the canvas. */
  lemma StackedWithoutGaps(sizes: seq<Size>, pageWidth: int)
    ensures var c := MergeImages(sizes, pageWidth);
      && (forall i :: 0 <= i < |sizes| - 1 ==> c.placements[i + 1].y == c.placements[i].y + sizes[i].height)
      && (forall i :: 0 <= i < |sizes| ==> 0 <= c.placements[i].y && c.placements[i].y + sizes[i].height <= c.height)
  {
    var c := MergeImages(sizes, pageWidth);
    forall i | 0 <= i < |sizes|
      ensures c.placements[i].y + sizes[i].height == TotalHeight(sizes[..i + 1]) <= c.height
    {
      assert sizes[..i + 1] == sizes[..i] + [sizes[i]];
      TotalHeightAppend(sizes[..i], sizes[i]);
      TotalHeightPrefix(sizes, i + 1);
    }
  }

  lemma {:induction false} TotalHeightPrefix(sizes: seq<Size>, n: nat)
    requires n <= |sizes|
    ensures TotalHeight(sizes[..n]) <= TotalHeight(sizes)
    decreases |sizes|
  {
    if n > 0 {
      assert sizes[..n][1..] == sizes[1..][..n - 1];
      TotalHeightPrefix(sizes[1..], n - 1);
    }
  }

  /** Centring: the right margin is the left margin or one pixel more. */
  lemma Centred(sizes: seq<Size>, pageWidth: int, i: nat)
    requires i < |sizes|
    ensures var x := MergeImages(sizes, pageWidth).placements[i].x;
      var right := pageWidth - sizes[i].width - x;
      right == x || right == x + 1
  {
  }

  /** An image starts inside the canvas exactly when it is no wider than the page. */
  lemma StartsInsideIffFits(sizes: seq<Size>, pageWidth: int, i: nat)
    requires i < |sizes|
    ensures MergeImages(sizes, pageWidth).placements[i].x >= 0 <==> sizes[i].width <= pageWidth
  {
  }

  /** Floor division, not truncation: a 601-pixel image on the default page starts one
      pixel left of the canvas, where truncating division would put it at 0. */
  lemma WideImageStartsLeftOfCanvas()
    ensures MergeImages([Size(601, 10)], DefaultPageWidth).placements[0] == Placement(-1, 0)
  {
  }
}
