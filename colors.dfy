/** Colours as an image of type OF_IMAGE_COLOR stores them: three 8-bit channels
    (ofColor over unsigned char), plus the integer accumulators the filters sum into. */
module Colors {

  /** One 8-bit channel. */
  type Channel = c: int | 0 <= c <= 255

  datatype Color = Color(r: Channel, g: Channel, b: Channel)

  // Named colours of openFrameworks' colour table that the model uses.
  const Black := Color(0, 0, 0)
  const Grey := Color(127, 127, 127)
  const LightGray := Color(211, 211, 211)
  const Green := Color(0, 255, 0)

  /** `0.3f * c` converted back to a channel: the product is truncated. */
  function ScaleThreeTenths(c: Channel): (a: Channel)
    ensures 10 * a <= 3 * c < 10 * a + 10
  {
    (3 * c) / 10
  }

  /** The ambient term `0.3f * diffuse * 1.0f` of phong. */
  function Ambient(diffuse: Color): (a: Color)
    ensures a.r <= diffuse.r && a.g <= diffuse.g && a.b <= diffuse.b
    ensures 10 * a.r <= 3 * diffuse.r < 10 * a.r + 10
    ensures 10 * a.g <= 3 * diffuse.g < 10 * a.g + 10
    ensures 10 * a.b <= 3 * diffuse.b < 10 * a.b + 10
  {
    Color(ScaleThreeTenths(diffuse.r), ScaleThreeTenths(diffuse.g), ScaleThreeTenths(diffuse.b))
  }

  /** ofColor addition: each channel saturates at 255. */
  function AddChannel(a: Channel, b: Channel): (s: Channel)
    ensures a <= s && b <= s
    ensures s == 255 || s == a + b
    ensures a + b <= 255 ==> s == a + b
  {
    if a + b > 255 then 255 else a + b
  }

  /** ofColor += on a whole colour: the exact sum in every channel where it fits, 255
      where it overflows. */
  function AddColor(c: Color, d: Color): (s: Color)
    ensures c.r + d.r <= 255 ==> s.r == c.r + d.r
    ensures c.g + d.g <= 255 ==> s.g == c.g + d.g
    ensures c.b + d.b <= 255 ==> s.b == c.b + d.b
    ensures c.r + d.r > 255 ==> s.r == 255
    ensures c.g + d.g > 255 ==> s.g == 255
    ensures c.b + d.b > 255 ==> s.b == 255
  {
    Color(AddChannel(c.r, d.r), AddChannel(c.g, d.g), AddChannel(c.b, d.b))
  }

  /** Channel-wise order: `c` is at least as bright as `d` in every channel. */
  predicate AtLeast(c: Color, d: Color)
  {
    c.r >= d.r && c.g >= d.g && c.b >= d.b
  }

  lemma AddColorBrightens(c: Color, d: Color)
    ensures AtLeast(AddColor(c, d), c) && AtLeast(AddColor(c, d), d)
  {
  }

  lemma AtLeastTransitive(a: Color, b: Color, c: Color)
    requires AtLeast(a, b) && AtLeast(b, c)
    ensures AtLeast(a, c)
  {
  }

  /** The float vector `colorSum` of the filters: channel sums of whole colours. */
  datatype Sum = Sum(r: nat, g: nat, b: nat)

  const Zero := Sum(0, 0, 0)

  function Plus(s: Sum, c: Color): Sum
  {
    Sum(s.r + c.r, s.g + c.g, s.b + c.b)
  }

  function AddSums(s: Sum, t: Sum): Sum
  {
    Sum(s.r + t.r, s.g + t.g, s.b + t.b)
  }

  /** `s` is a sum of at most `k` colours' worth of channel values. */
  predicate Bounded(s: Sum, k: nat)
  {
    s.r <= 255 * k && s.g <= 255 * k && s.b <= 255 * k
  }

  /** `ofColor(colorSum / k)`: the float quotient of an integer sum, truncated. */
  function Mean(s: Sum, k: nat): (c: Color)
    requires k > 0 && Bounded(s, k)
    ensures k * c.r <= s.r < k * c.r + k
    ensures k * c.g <= s.g < k * c.g + k
    ensures k * c.b <= s.b < k * c.b + k
  {
    MeanChannelBound(s.r, k);
    MeanChannelBound(s.g, k);
    MeanChannelBound(s.b, k);
    Color(s.r / k, s.g / k, s.b / k)
  }

  lemma MeanChannelBound(x: nat, k: nat)
    requires k > 0 && x <= 255 * k
    ensures x / k <= 255
  {
    DivLower(x, k, 256);
  }

  /** Euclidean division by a positive divisor: `a / k >= q` forces `a >= k * q`. */
  lemma DivLower(a: int, k: int, q: int)
    requires k > 0
    ensures a / k >= q ==> a >= k * q
  {
    if a / k >= q {
      MulMonotone(k, q, a / k);
    }
  }

  lemma MulMonotone(k: int, m: int, n: int)
    requires k >= 0 && m <= n
    ensures k * m <= k * n
  {
    assert k * n - k * m == k * (n - m);
  }

  /** One more group of `k`: k * (n - 1) + k is k * n, and neither is negative. */
  lemma MulStep(k: nat, n: nat)
    requires n >= 1
    ensures 0 <= k * (n - 1) && k * (n - 1) + k == k * n
  {
    assert k * n == k * (n - 1) + k * 1;
  }

  /** `k` copies of one colour sum to `k` times its channels. */
  function Repeat(c: Color, k: nat): Sum
  {
    Sum(k * c.r, k * c.g, k * c.b)
  }

  /** Averaging `k` copies of a colour gives the colour back. */
  lemma MeanOfRepeat(c: Color, k: nat)
    requires k > 0
    ensures Bounded(Repeat(c, k), k) && Mean(Repeat(c, k), k) == c
  {
    var s := Repeat(c, k);
    MulMonotone(k, c.r, 255);
    MulMonotone(k, c.g, 255);
    MulMonotone(k, c.b, 255);
    assert s.r <= k * 255 && s.g <= k * 255 && s.b <= k * 255;
    MeanOfMultiple(c.r, k);
    MeanOfMultiple(c.g, k);
    MeanOfMultiple(c.b, k);
  }

  lemma MeanOfMultiple(x: nat, k: nat)
    requires k > 0
    ensures (k * x) / k == x
  {
    DivUnique(k * x, k, x, 0);
  }

  /** The quotient of Euclidean division is the only `q` with `a == k * q + r`, `0 <= r < k`. */
  lemma DivUnique(a: int, k: int, q: int, r: int)
    requires k > 0 && 0 <= r < k && a == k * q + r
    ensures a / k == q
  {
    var q' := a / k;
    assert a == k * q' + a % k;
    if q' > q {
      MulMonotone(k, q + 1, q');
      assert false;
    } else if q' < q {
      MulMonotone(k, q' + 1, q);
      assert false;
    }
  }
}
