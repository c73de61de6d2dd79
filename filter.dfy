/** The SSAA box filter shared by rayTrace and reSSAntiAlias: every pixel of the reduced
    image is the truncated mean of a non-overlapping n x n block of the source image,
    summed rows outer (v) and columns inner (u) as the source does. Images are ofImage
    buffers, modelled as `array2<Color>` indexed [x, y] like setColor(x, y). */
module Filter {
  import opened Colors

  /** The contents of an image as a value: g[x][y] is the pixel at column x, row y. */
  type Grid = seq<seq<Color>>

  ghost function GridOf(a: array2<Color>): (g: Grid)
    reads a
    ensures |g| == a.Length0
    ensures forall x :: 0 <= x < a.Length0 ==> |g[x]| == a.Length1
  {
    seq(a.Length0, x requires 0 <= x < a.Length0 reads a =>
      seq(a.Length1, y requires 0 <= y < a.Length1 reads a => a[x, y]))
  }

  lemma PixelOfGrid(a: array2<Color>, x: int, y: int)
    requires 0 <= x < a.Length0 && 0 <= y < a.Length1
    ensures Pixel(GridOf(a), x, y) == a[x, y]
  {
  }

  /** An image whose every pixel agrees with a grid of its size holds that grid. */
  lemma GridOfMatches(a: array2<Color>, g: Grid)
    requires |g| == a.Length0 && forall x :: 0 <= x < |g| ==> |g[x]| == a.Length1
    requires forall x, y :: 0 <= x < a.Length0 && 0 <= y < a.Length1 ==> a[x, y] == g[x][y]
    ensures GridOf(a) == g
  {
    forall x | 0 <= x < a.Length0
      ensures GridOf(a)[x] == g[x]
    {
    }
  }

  /** getColor(x, y) on a grid; outside the grid (where the filters never read) Black. */
  function Pixel(g: Grid, x: int, y: int): Color
  {
    if 0 <= x < |g| && 0 <= y < |g[x]| then g[x][y] else Black
  }

  /** The sum of the first `k` pixels of row `y`, starting at column `x0`. */
  function RowSum(g: Grid, x0: int, y: int, k: nat): (s: Sum)
    ensures Bounded(s, k)
    decreases k
  {
    if k == 0 then Zero else Plus(RowSum(g, x0, y, k - 1), Pixel(g, x0 + k - 1, y))
  }

  /** The sum of the first `k` rows, each `n` wide, of the block at (x0, y0). */
  function BlockSum(g: Grid, x0: int, y0: int, n: nat, k: nat): (s: Sum)
    ensures Bounded(s, n * k)
    decreases k
  {
    if k == 0 then Zero
    else
      var s := AddSums(BlockSum(g, x0, y0, n, k - 1), RowSum(g, x0, y0 + k - 1, n));
      MulStep(n, k);
      s
  }

  /** Pixel (i, j) of the n-reduced image: the truncated mean of block (i*n, j*n). */
  function BlockMean(g: Grid, n: nat, i: int, j: int): (c: Color)
    requires n >= 1
  {
    Mean(BlockSum(g, i * n, j * n, n, n), n * n)
  }

  /** The whole n-reduced image of width w and height h. */
  function Downsampled(g: Grid, n: nat, w: nat, h: nat): (r: Grid)
    requires n >= 1
    ensures |r| == w && forall i :: 0 <= i < w ==> |r[i]| == h
  {
    seq(w, i => seq(h, j => BlockMean(g, n, i, j)))
  }

  /** Every channel of a reduced pixel lies between the darkest and the brightest value
      of that channel in its block. */
  predicate ChannelsWithin(c: Color, lo: Color, hi: Color)
  {
    lo.r <= c.r <= hi.r && lo.g <= c.g <= hi.g && lo.b <= c.b <= hi.b
  }

  predicate BlockWithin(g: Grid, x0: int, y0: int, n: nat, lo: Color, hi: Color)
  {
    forall x, y :: x0 <= x < x0 + n && y0 <= y < y0 + n ==> ChannelsWithin(Pixel(g, x, y), lo, hi)
  }

  /** Every channel of `s` lies between those of `k` copies of `lo` and of `hi`. */
  predicate SumWithin(s: Sum, lo: Color, hi: Color, k: nat)
  {
    && Repeat(lo, k).r <= s.r <= Repeat(hi, k).r
    && Repeat(lo, k).g <= s.g <= Repeat(hi, k).g
    && Repeat(lo, k).b <= s.b <= Repeat(hi, k).b
  }

  lemma AddSumsWithin(s: Sum, t: Sum, lo: Color, hi: Color, a: nat, b: nat)
    requires SumWithin(s, lo, hi, a) && SumWithin(t, lo, hi, b)
    ensures SumWithin(AddSums(s, t), lo, hi, a + b)
  {
    RepeatSplit(lo, a, b);
    RepeatSplit(hi, a, b);
  }

  lemma {:induction false} RowSumWithin(g: Grid, x0: int, y: int, k: nat, lo: Color, hi: Color)
    requires forall x :: x0 <= x < x0 + k ==> ChannelsWithin(Pixel(g, x, y), lo, hi)
    ensures SumWithin(RowSum(g, x0, y, k), lo, hi, k)
  {
    if k > 0 {
      RowSumWithin(g, x0, y, k - 1, lo, hi);
      var c := Pixel(g, x0 + k - 1, y);
      assert ChannelsWithin(c, lo, hi);
      assert SumWithin(Plus(Zero, c), lo, hi, 1);
      AddSumsWithin(RowSum(g, x0, y, k - 1), Plus(Zero, c), lo, hi, k - 1, 1);
      assert RowSum(g, x0, y, k) == AddSums(RowSum(g, x0, y, k - 1), Plus(Zero, c));
    }
  }

  lemma {:induction false} BlockSumWithin(g: Grid, x0: int, y0: int, n: nat, k: nat, lo: Color, hi: Color)
    requires k <= n && BlockWithin(g, x0, y0, n, lo, hi)
    ensures SumWithin(BlockSum(g, x0, y0, n, k), lo, hi, n * k)
  {
    if k > 0 {
      BlockSumWithin(g, x0, y0, n, k - 1, lo, hi);
      RowSumWithin(g, x0, y0 + k - 1, n, lo, hi);
      AddSumsWithin(BlockSum(g, x0, y0, n, k - 1), RowSum(g, x0, y0 + k - 1, n), lo, hi, n * (k - 1), n);
      MulStep(n, k);
    }
  }

  lemma RepeatSplit(c: Color, a: nat, b: nat)
    ensures Repeat(c, a + b) == AddSums(Repeat(c, a), Repeat(c, b))
  {
    assert (a + b) * c.r == a * c.r + b * c.r;
    assert (a + b) * c.g == a * c.g + b * c.g;
    assert (a + b) * c.b == a * c.b + b * c.b;
  }

  /** The mean of a block is bounded by the block's channel extremes. */
  lemma BlockMeanWithin(g: Grid, n: nat, i: int, j: int, lo: Color, hi: Color)
    requires n >= 1 && BlockWithin(g, i * n, j * n, n, lo, hi)
    ensures ChannelsWithin(BlockMean(g, n, i, j), lo, hi)
  {
    BlockSumWithin(g, i * n, j * n, n, n, lo, hi);
    var s := BlockSum(g, i * n, j * n, n, n);
    var c := BlockMean(g, n, i, j);
    var k := n * n;
    MeanBetween(s.r, k, lo.r, hi.r, c.r);
    MeanBetween(s.g, k, lo.g, hi.g, c.g);
    MeanBetween(s.b, k, lo.b, hi.b, c.b);
  }

  lemma MeanBetween(s: nat, k: nat, lo: nat, hi: nat, c: nat)
    requires k > 0 && k * lo <= s <= k * hi && k * c <= s < k * c + k
    ensures lo <= c <= hi
  {
    if c < lo {
      MulMonotone(k, c + 1, lo);
      assert false;
    }
    if c > hi {
      MulMonotone(k, hi + 1, c);
      assert false;
    }
  }

  /** A block of one colour reduces to that colour. */
  lemma UniformBlockKeepsColor(g: Grid, n: nat, i: int, j: int, c: Color)
    requires n >= 1
    requires forall x, y :: i * n <= x < i * n + n && j * n <= y < j * n + n ==> Pixel(g, x, y) == c
    ensures BlockMean(g, n, i, j) == c
  {
    BlockMeanWithin(g, n, i, j, c, c);
  }

  /** The inner loops of the SSAA stage: sum block (i, j) of `src`, reading
      image.getColor(i * n + fmod(u, n), j * n + fmod(v, n)), and divide by n * n. */
  method AverageBlock(src: array2<Color>, n: int, i: int, j: int) returns (c: Color)
    requires 1 <= n && 0 <= i && 0 <= j
    requires i * n + n <= src.Length0 && j * n + n <= src.Length1
    ensures c == BlockMean(GridOf(src), n, i, j)
  {
    var sampleNum := n;
    MulMonotone(n, 0, i);
    MulMonotone(n, 0, j);
    var colorSum := BlockTotal(src, i * sampleNum, j * sampleNum, sampleNum);
    c := Mean(colorSum, sampleNum * sampleNum);
  }

  /** The two sample loops of the SSAA stage over the n x n block at (x0, y0): rows v
      outer, columns u inner. */
  method BlockTotal(src: array2<Color>, x0: int, y0: int, n: nat) returns (colorSum: Sum)
    requires 0 <= x0 && x0 + n <= src.Length0 && 0 <= y0 && y0 + n <= src.Length1
    ensures colorSum == BlockSum(GridOf(src), x0, y0, n, n)
  {
    ghost var g := GridOf(src);
    colorSum := Zero;
    var v := 0;
    while v < n
      invariant 0 <= v <= n
      invariant colorSum == BlockSum(g, x0, y0, n, v)
    {
      colorSum := RowTotal(src, x0, y0, n, v, colorSum);
      v := v + 1;
    }
  }

  /** The inner sample loop of the SSAA stage: row v of the block at (x0, y0), read at
      column fmod(u, n), added to `start`. */
  method RowTotal(src: array2<Color>, x0: int, y0: int, n: nat, v: int, start: Sum) returns (colorSum: Sum)
    requires 0 <= x0 && x0 + n <= src.Length0 && 0 <= y0 && 0 <= v < n && y0 + n <= src.Length1
    ensures colorSum == AddSums(start, RowSum(GridOf(src), x0, y0 + v, n))
  {
    colorSum := start;
    var u := 0;
    while u < n
      invariant 0 <= u <= n
      invariant colorSum == AddSums(start, RowSum(GridOf(src), x0, y0 + v, u))
    {
      ModOfSmall(u, n);
      ModOfSmall(v, n);
      var theColor := src[x0 + u % n, y0 + v % n];
      PixelOfGrid(src, x0 + u, y0 + v);
      colorSum := Plus(colorSum, theColor);
      u := u + 1;
    }
  }

  lemma ModOfSmall(u: int, n: int)
    requires 0 <= u < n
    ensures u % n == u
  {
    DivUnique(u, n, 0, u);
  }

  /** Index arithmetic of a block: block i < w of width n ends within w * n. */
  lemma BlockInRange(i: int, n: int, w: int)
    requires 0 <= i < w && 0 <= n
    ensures 0 <= i * n && i * n + n <= w * n
  {
    MulMonotone(n, i + 1, w);
    MulMonotone(n, 0, i);
  }

  /** The outer loops of the SSAA stage (rayTrace, lines 403-425) and of reSSAntiAlias
      (lines 472-494): allocate a w x h image and fill it with the block means of `src`. */
  method Downsample(src: array2<Color>, n: int, w: int, h: int) returns (dst: array2<Color>)
    requires 1 <= n && 0 <= w && 0 <= h
    requires w * n <= src.Length0 && h * n <= src.Length1
    ensures fresh(dst) && dst.Length0 == w && dst.Length1 == h
    ensures GridOf(dst) == Downsampled(GridOf(src), n, w, h)
  {
    ghost var g := GridOf(src);
    dst := new Color[w, h];
    var j := 0;
    while j < h
      invariant 0 <= j <= h
      invariant forall x, y :: 0 <= x < w && 0 <= y < j ==> dst[x, y] == BlockMean(g, n, x, y)
    {
      var i := 0;
      while i < w
        invariant 0 <= i <= w
        invariant forall x, y :: 0 <= x < w && 0 <= y < j ==> dst[x, y] == BlockMean(g, n, x, y)
        invariant forall x :: 0 <= x < i ==> dst[x, j] == BlockMean(g, n, x, j)
      {
        BlockInRange(i, n, w);
        BlockInRange(j, n, h);
        var resultColor := AverageBlock(src, n, i, j);
        dst[i, j] := resultColor;
        i := i + 1;
      }
      j := j + 1;
    }
    GridOfMatches(dst, Downsampled(g, n, w, h));
  }

  /** The "SSAA Render Expanded" preview (rayTrace, lines 433-449): pixel (x, y) of the
      full-size image becomes pixel (int(ofMap(x, 0, W, 0, w)), int(ofMap(y, 0, H, 0, h)))
      of the reduced one, i.e. (x * w / W, y * h / H) truncated. The inner loops of the
      source only repeat the same write. */
  method Expand(small: array2<Color>, big: array2<Color>)
    requires small != big
    requires big.Length0 >= 1 && big.Length1 >= 1
    modifies big
    ensures forall x, y :: 0 <= x < big.Length0 && 0 <= y < big.Length1 ==>
      big[x, y] == Pixel(GridOf(small), (x * small.Length0) / big.Length0, (y * small.Length1) / big.Length1)
  {
    ghost var g := GridOf(small);
    var imageWidth, imageHeight := big.Length0, big.Length1;
    var aaWidth, aaHeight := small.Length0, small.Length1;
    var j := 0;
    while j < imageHeight
      invariant 0 <= j <= imageHeight && GridOf(small) == g
      invariant forall x, y :: 0 <= x < imageWidth && 0 <= y < j ==>
        big[x, y] == Pixel(g, (x * aaWidth) / imageWidth, (y * aaHeight) / imageHeight)
    {
      var i := 0;
      while i < imageWidth
        invariant 0 <= i <= imageWidth && GridOf(small) == g
        invariant forall x, y :: 0 <= x < imageWidth && 0 <= y < j ==>
          big[x, y] == Pixel(g, (x * aaWidth) / imageWidth, (y * aaHeight) / imageHeight)
        invariant forall x :: 0 <= x < i ==>
          big[x, j] == Pixel(g, (x * aaWidth) / imageWidth, (j * aaHeight) / imageHeight)
      {
        var u := (i * aaWidth) / imageWidth;
        var v := (j * aaHeight) / imageHeight;
        ScaledIndexInRange(i, aaWidth, imageWidth);
        ScaledIndexInRange(j, aaHeight, imageHeight);
        var theColor := if u < aaWidth && v < aaHeight then small[u, v] else Black;
        big[i, j] := theColor;
        i := i + 1;
      }
      j := j + 1;
    }
  }

  lemma ScaledIndexInRange(x: nat, small: nat, big: nat)
    requires x < big
    ensures 0 <= (x * small) / big
    ensures small >= 1 ==> (x * small) / big < small
  {
    if small >= 1 {
      MulMonotone(small, x + 1, big);
      DivLower(x * small, big, small);
    }
  }

  /** When the full image is exactly n times the reduced one, the preview's index is the
      block index x / n: each block of the full image shows its reduced pixel. */
  lemma ExpandIndexIsBlock(x: nat, n: nat, small: nat)
    requires n >= 1 && small >= 1
    ensures (x * small) / (n * small) == x / n
  {
    var q, r := x / n, x % n;
    assert x == n * q + r;
    assert x * small == (n * small) * q + r * small;
    MulMonotone(small, r, n - 1);
    assert r * small <= (n - 1) * small;
    assert (n - 1) * small == n * small - small;
    DivUnique(x * small, n * small, q, r * small);
  }

  /** Truncating division by a sample size leaves room for whole blocks only. */
  lemma QuotientFits(a: int, n: int)
    requires a >= 0 && n >= 1
    ensures 0 <= a / n && (a / n) * n <= a
  {
    assert a == (a / n) * n + a % n;
  }

  /** When the sample size divides the dimension, the blocks cover it exactly. */
  lemma ExactQuotient(a: int, n: int)
    requires a >= 1 && n >= 1 && a % n == 0
    ensures a / n >= 1 && a == n * (a / n)
  {
    assert a == (a / n) * n + a % n;
  }

  /** The SSAA stage of rayTrace once the sample size n divides both dimensions: the
      (W/n) x (H/n) block-mean image, with the full-size image overwritten by its blocky
      preview, so that every full-size pixel shows the mean of the block it lies in. */
  method ReduceAndPreview(image: array2<Color>, n: int) returns (reduced: array2<Color>)
    requires 1 <= n && image.Length0 >= 1 && image.Length1 >= 1
    requires image.Length0 % n == 0 && image.Length1 % n == 0
    modifies image
    ensures fresh(reduced) && reduced.Length0 == image.Length0 / n && reduced.Length1 == image.Length1 / n
    ensures GridOf(reduced) == Downsampled(old(GridOf(image)), n, reduced.Length0, reduced.Length1)
    ensures forall x, y :: 0 <= x < image.Length0 && 0 <= y < image.Length1 ==>
      image[x, y] == Pixel(GridOf(reduced), x / n, y / n)
  {
    var w, h := image.Length0 / n, image.Length1 / n;
    ExactQuotient(image.Length0, n);
    ExactQuotient(image.Length1, n);
    reduced := Downsample(image, n, w, h);
    ghost var g := GridOf(reduced);
    Expand(reduced, image);
    assert GridOf(reduced) == g;
    forall x: nat, y: nat | x < image.Length0 && y < image.Length1
      ensures image[x, y] == Pixel(g, x / n, y / n)
    {
      ExpandIndexIsBlock(x, n, w);
      ExpandIndexIsBlock(y, n, h);
    }
  }
}
