// The canvas size of a generated image: from explicit sizes, from an aspect
// ratio, or shrunk to a provider's largest edge. Where the code computes with
// floating point, exact fractions are rounded half up.
module ImageDimensions {
  import opened Wrappers
  import opened Text
  import opened Json

  datatype Dimensions = Dimensions(width: nat, height: nat)

  datatype Request = Request(width: Option<nat>, height: Option<nat>, size: Option<string>, aspectRatio: Option<string>)

  datatype SizeError =
    | TooSmall
    | InvalidSize
    | InvalidRatio
    | EdgeTooLong
    | NotMultipleOf16
    | RatioTooExtreme
    | PixelCount

  const DEFAULT_SIZE := "1024x1024"

  function Max(a: nat, b: nat): nat { if a < b then b else a }

  function Min(a: nat, b: nat): nat { if a < b then a else b }

  // n / d rounded to the nearest whole number, halves up.
  function Rounded(n: nat, d: nat): nat
    requires d > 0
  {
    (2 * n + d) / (2 * d)
  }

  function RoundTo16(value: nat): nat { Max((Max(value, 64) + 8) / 16, 4) * 16 }

  function Validated(d: Dimensions): Result<Dimensions, SizeError> {
    if d.width < 64 || d.height < 64 then Err(TooSmall) else Ok(d)
  }

  function ParsePair(text: string, separator: char): Option<(nat, nat)> {
    match SplitOnce(text, separator)
    case None => None
    case Some((first, second)) =>
      match (ParseUnsigned(first, MAX_U32), ParseUnsigned(second, MAX_U32))
      case (Some(a), Some(b)) => Some((a, b))
      case _ => None
  }

  function ParseSize(value: string): Option<(nat, nat)> { ParsePair(Lower(Trim(value)), 'x') }

  function ParseRatio(value: string): Option<(nat, nat)> {
    match ParsePair(Trim(value), ':')
    case Some((w, h)) => if w == 0 || h == 0 then None else Some((w, h))
    case None => None
  }

  // The canvas of a ratio before validation: the long edge is 1024.
  function RatioCanvas(w: nat, h: nat): Dimensions
    requires w > 0 && h > 0
  {
    if w >= h then Dimensions(RoundTo16(1024), RoundTo16(Rounded(1024 * h, w)))
    else Dimensions(RoundTo16(Rounded(1024 * w, h)), RoundTo16(1024))
  }

  function SizeDimensions(size: string): Result<Dimensions, SizeError> {
    match ParseSize(size)
    case Some((w, h)) => Validated(Dimensions(w, h))
    case None => Err(InvalidSize)
  }

  // dimensions
  function DimensionsOf(r: Request): Result<Dimensions, SizeError> {
    if r.width.Some? && r.height.Some? then Validated(Dimensions(r.width.value, r.height.value))
    else if r.size.Some? && r.size.value != "auto" then SizeDimensions(r.size.value)
    else if r.aspectRatio.Some? then
      match ParseRatio(r.aspectRatio.value)
      case Some((w, h)) => Validated(RatioCanvas(w, h))
      case None => Err(InvalidRatio)
    else SizeDimensions(DEFAULT_SIZE)
  }

  // The canvas shrunk in proportion so that its long edge is near the limit.
  function Shrunk(d: Dimensions, limit: nat): Dimensions
    requires d.width > 0
  {
    var long := Max(d.width, d.height);
    Dimensions(Scaled(d.width, limit, long), Scaled(d.height, limit, long))
  }

  function Scaled(edge: nat, limit: nat, long: nat): nat
    requires long > 0
  {
    RoundTo16(Rounded(edge * limit, long))
  }

  // provider_dimensions
  function ProviderDimensions(r: Request, limit: nat): Result<Dimensions, SizeError> {
    match DimensionsOf(r)
    case Err(e) => Err(e)
    case Ok(d) =>
      if d.width <= limit && d.height <= limit then Ok(d)
      else if d.width > 0 then Validated(Shrunk(d, limit))
      else Err(TooSmall)
  }

  function OpenAiError(d: Dimensions): Option<SizeError> {
    var long, short, pixels := Max(d.width, d.height), Min(d.width, d.height), d.width * d.height;
    if long > 3840 then Some(EdgeTooLong)
    else if d.width % 16 != 0 || d.height % 16 != 0 then Some(NotMultipleOf16)
    else if long > 3 * short then Some(RatioTooExtreme)
    else if !(655_360 <= pixels <= 8_294_400) then Some(PixelCount)
    else None
  }

  function SizeText(d: Dimensions): string { Decimal(d.width) + "x" + Decimal(d.height) }

  // openai_size
  function OpenAiSize(r: Request): Result<string, SizeError> {
    if r.size == Some("auto") then Ok("auto")
    else
      match DimensionsOf(r)
      case Err(e) => Err(e)
      case Ok(d) =>
        match OpenAiError(d)
        case Some(e) => Err(e)
        case None => Ok(SizeText(d))
  }

  // --------------------------------------------------------------- rounding

  // The nearest multiple of 16, and at least 64.
  lemma RoundTo16IsNearest(value: nat)
    ensures RoundTo16(value) % 16 == 0 && RoundTo16(value) >= 64
    ensures value >= 64 ==> RoundTo16(value) - 8 <= value < RoundTo16(value) + 8
    ensures value < 64 ==> RoundTo16(value) == 64
  {
  }

  lemma RoundTo16Grows(a: nat, b: nat)
    requires a <= b
    ensures RoundTo16(a) <= RoundTo16(b)
  {
  }

  // A fraction that is at most a whole number rounds to at most that number.
  lemma RoundedAtMost(n: nat, d: nat, whole: nat)
    requires d > 0 && n <= whole * d
    ensures Rounded(n, d) <= whole
  {
    DivideBelow(2 * n + d, 2 * d, whole + 1);
  }

  lemma LessFactor(a: int, b: int, d: nat)
    requires a * d < b * d
    ensures a < b
  {
    assert (a - b) * d == a * d - b * d;
  }

  lemma DivideBelow(n: nat, d: nat, q: nat)
    requires d > 0 && n < q * d
    ensures n / d < q
  {
    assert n == (n / d) * d + n % d;
    LessFactor(n / d, q, d);
  }

  lemma DivideAtLeast(n: nat, d: nat, q: nat)
    requires d > 0 && n >= q * d
    ensures n / d >= q
  {
    var k := n / d;
    assert n == k * d + n % d;
    assert (k + 1) * d == k * d + d;
    LessFactor(q, k + 1, d);
  }

  lemma RoundedWhole(n: nat, d: nat, whole: nat)
    requires d > 0 && n == whole * d
    ensures Rounded(n, d) == whole
  {
    DivideBelow(2 * n + d, 2 * d, whole + 1);
    DivideAtLeast(2 * n + d, 2 * d, whole);
  }

  lemma RoundedReaches(n: nat, d: nat, whole: nat)
    requires d > 0
    ensures Rounded(n, d) >= whole <==> 2 * n + d >= whole * (2 * d)
  {
    if 2 * n + d >= whole * (2 * d) {
      DivideAtLeast(2 * n + d, 2 * d, whole);
    } else {
      DivideBelow(2 * n + d, 2 * d, whole);
    }
  }

  // Every positive aspect ratio gives a canvas with long edge 1024 and both
  // edges multiples of 16 from 64 to 1024, on the side the ratio asks for.
  lemma RatioCanvasFits(w: nat, h: nat)
    requires w > 0 && h > 0
    ensures var d := RatioCanvas(w, h);
      && Max(d.width, d.height) == 1024
      && d.width % 16 == 0 && d.height % 16 == 0
      && 64 <= d.width <= 1024 && 64 <= d.height <= 1024
      && (w >= h ==> d.width == 1024) && (w <= h ==> d.height == 1024)
      && Validated(d) == Ok(d)
  {
    var long, short := Max(w, h), Min(w, h);
    RoundedAtMost(1024 * short, long, 1024);
    RoundTo16Grows(Rounded(1024 * short, long), 1024);
    RoundTo16IsNearest(Rounded(1024 * short, long));
    if w == h {
      RoundedWhole(1024 * h, w, 1024);
    }
  }

  lemma ScaledLong(long: nat, limit: nat)
    requires long > 0
    ensures Scaled(long, limit, long) == RoundTo16(limit)
  {
    RoundedWhole(long * limit, long, limit);
  }

  lemma ScaledShort(long: nat, short: nat, limit: nat)
    requires short <= long && long > 0
    ensures 64 <= Scaled(short, limit, long) <= RoundTo16(limit)
    ensures Scaled(short, limit, long) % 16 == 0
  {
    assert short * limit <= long * limit;
    RoundedAtMost(short * limit, long, limit);
    RoundTo16Grows(Rounded(short * limit, long), limit);
    RoundTo16IsNearest(Rounded(short * limit, long));
  }

  lemma LimitIsKept(limit: nat)
    ensures RoundTo16(limit) <= limit <==> limit >= 64 && limit % 16 < 8
  {
  }

  // Both edges stay multiples of 16 that are at least 64, in the same order of
  // size, and the long one becomes the multiple nearest to the limit.
  lemma ShrunkEdges(d: Dimensions, limit: nat)
    requires d.width > 0
    ensures var s := Shrunk(d, limit);
      && s.width % 16 == 0 && s.height % 16 == 0 && s.width >= 64 && s.height >= 64
      && Max(s.width, s.height) == RoundTo16(limit)
      && (d.width >= d.height ==> s.width == RoundTo16(limit))
      && (d.width <= d.height ==> s.height == RoundTo16(limit))
  {
    var long := Max(d.width, d.height);
    ScaledLong(long, limit);
    ScaledShort(long, d.width, limit);
    ScaledShort(long, d.height, limit);
  }

  // So the result stays within the limit exactly when the limit is at least 64
  // and less than half a step above a multiple of 16.
  lemma ShrunkFits(d: Dimensions, limit: nat)
    requires d.width > 0
    ensures (Shrunk(d, limit).width <= limit && Shrunk(d, limit).height <= limit) <==> (limit >= 64 && limit % 16 < 8)
  {
    ShrunkEdges(d, limit);
    LimitIsKept(limit);
  }

  // For every request, a limit that is a multiple of 16 and at least 64 is
  // kept, and no accepted canvas has an edge below 64.
  lemma ProviderDimensionsFit(r: Request, limit: nat)
    requires limit >= 64 && limit % 16 == 0
    ensures match ProviderDimensions(r, limit)
      case Ok(d) => 64 <= d.width <= limit && 64 <= d.height <= limit
      case Err(e) => DimensionsOf(r) == Err(e)
  {
    if DimensionsOf(r).Ok? {
      var d := DimensionsOf(r).value;
      DimensionsAreValid(r);
      ShrunkEdges(d, limit);
      LimitIsKept(limit);
    }
  }

  lemma DimensionsAreValid(r: Request)
    ensures DimensionsOf(r).Ok? ==> DimensionsOf(r).value.width >= 64 && DimensionsOf(r).value.height >= 64
  {
  }

  // Which of its fields decide a request's canvas: both edges, else a size other
  // than "auto", else a ratio, and otherwise the canvas is 1024 by 1024.
  lemma DimensionsSay(r: Request)
    ensures forall w, h :: r.width == Some(w) && r.height == Some(h) ==> CanvasIs(DimensionsOf(r), Some((w, h)), InvalidSize)
    ensures (r.width.None? || r.height.None?) && r.size.Some? && r.size != Some("auto") ==>
      CanvasIs(DimensionsOf(r), ParseSize(r.size.value), InvalidSize)
    ensures (r.width.None? || r.height.None?) && (r.size.None? || r.size == Some("auto")) ==>
      match r.aspectRatio
      case None => DimensionsOf(r) == Ok(Dimensions(1024, 1024))
      case Some(text) =>
        match ParseRatio(text)
        case None => DimensionsOf(r) == Err(InvalidRatio)
        case Some((w, h)) => DimensionsOf(r) == Ok(RatioCanvas(w, h))
  {
    if r.aspectRatio.Some? && ParseRatio(r.aspectRatio.value).Some? {
      var (w, h) := ParseRatio(r.aspectRatio.value).value;
      RatioCanvasFits(w, h);
    }
    SizeReadsBack(Dimensions(1024, 1024));
    DefaultSizeText();
  }

  lemma DefaultSizeText()
    ensures SizeText(Dimensions(1024, 1024)) == "1024x1024"
  {
    assert Decimal(1) == "1" && Decimal(10) == Decimal(1) + "0" && Decimal(102) == Decimal(10) + "2";
    assert Decimal(1024) == Decimal(102) + "4" == "1024";
  }

  // Both edges are at least 64, or the canvas is refused as too small.
  predicate CanvasIs(r: Result<Dimensions, SizeError>, edges: Option<(nat, nat)>, otherwise: SizeError) {
    match edges
    case None => r == Err(otherwise)
    case Some((w, h)) => r == if w >= 64 && h >= 64 then Ok(Dimensions(w, h)) else Err(TooSmall)
  }

  // A canvas within the limit is left alone, and any other is shrunk.
  lemma ProviderSays(r: Request, limit: nat)
    requires DimensionsOf(r).Ok?
    ensures var d := DimensionsOf(r).value;
      && d.width > 0
      && ProviderDimensions(r, limit) == Ok(if Max(d.width, d.height) <= limit then d else Shrunk(d, limit))
  {
    DimensionsAreValid(r);
    ShrunkEdges(DimensionsOf(r).value, limit);
  }

  // What the service accepts, and the first thing it refuses.
  lemma OpenAiSays(d: Dimensions)
    ensures OpenAiError(d) == None <==>
            && d.width <= 3840 && d.height <= 3840 && d.width % 16 == 0 && d.height % 16 == 0
            && d.width <= 3 * d.height && d.height <= 3 * d.width
            && 655_360 <= d.width * d.height <= 8_294_400
    ensures OpenAiError(d) == Some(EdgeTooLong) <==> d.width > 3840 || d.height > 3840
    ensures OpenAiError(d) == Some(NotMultipleOf16) <==>
            d.width <= 3840 && d.height <= 3840 && (d.width % 16 > 0 || d.height % 16 > 0)
    ensures OpenAiError(d) == Some(PixelCount) ==> d.width <= 3 * d.height && d.height <= 3 * d.width
  {
  }

  // The service is sent the canvas, or "auto" when that is asked for.
  lemma OpenAiSizeSays(r: Request)
    ensures r.size == Some("auto") ==> OpenAiSize(r) == Ok("auto")
    ensures r.size != Some("auto") && DimensionsOf(r).Err? ==> OpenAiSize(r) == Err(DimensionsOf(r).error)
    ensures r.size != Some("auto") && DimensionsOf(r).Ok? ==>
      match OpenAiError(DimensionsOf(r).value)
      case Some(e) => OpenAiSize(r) == Err(e)
      case None => OpenAiSize(r) == Ok(SizeText(DimensionsOf(r).value))
  {
  }

  // A request that only gives a ratio is accepted exactly when the rounded
  // short edge is at least 640: when the ratio is at most 2048 to 1263.
  lemma RatioOnlyAccepted(w: nat, h: nat)
    requires w > 0 && h > 0
    ensures var d := RatioCanvas(w, h);
      && (OpenAiError(d).None? <==> Min(d.width, d.height) >= 640)
      && (OpenAiError(d).None? <==> 1263 * Max(w, h) <= 2048 * Min(w, h))
  {
    RatioCanvasFits(w, h);
    var long, short := Max(w, h), Min(w, h);
    var edge := Rounded(1024 * short, long);
    var d := RatioCanvas(w, h);
    assert Min(d.width, d.height) == RoundTo16(edge) by {
      RoundedAtMost(1024 * short, long, 1024);
      RoundTo16Grows(edge, 1024);
      if w == h { RoundedWhole(1024 * h, w, 1024); }
    }
    RoundedReaches(1024 * short, long, 632);
    assert RoundTo16(edge) >= 640 <==> edge >= 632;
    assert d.width * d.height == 1024 * RoundTo16(edge);
  }

  lemma RatioOnlyRequest(r: Request)
    requires r.width.None? || r.height.None?
    requires r.size.None? && r.aspectRatio.Some? && ParseRatio(r.aspectRatio.value).Some?
    ensures var (w, h) := ParseRatio(r.aspectRatio.value).value;
      OpenAiSize(r).Ok? <==> 1263 * Max(w, h) <= 2048 * Min(w, h)
  {
    var (w, h) := ParseRatio(r.aspectRatio.value).value;
    RatioCanvasFits(w, h);
    RatioOnlyAccepted(w, h);
  }

  // ------------------------------------------------------- the ratio label

  predicate Product(n: nat, d: nat, k: nat) { n == d * k }

  ghost predicate Divides(d: nat, n: nat) { exists k: nat :: Product(n, d, k) }

  function GcdOf(a: nat, b: nat): (g: nat)
    ensures g > 0
    decreases b
  {
    if b == 0 then Max(a, 1) else GcdOf(b, a % b)
  }

  method Gcd(first: nat, second: nat) returns (g: nat)
    ensures g == GcdOf(first, second)
  {
    var a, b := first, second;
    while b != 0
      invariant GcdOf(a, b) == GcdOf(first, second)
      decreases b
    {
      var r := a % b;
      a := b;
      b := r;
    }
    g := Max(a, 1);
  }

  // d divides the first of two numbers exactly when it divides the remainder,
  // provided it divides the second.
  lemma DividesRemainder(d: nat, a: nat, b: nat)
    requires d > 0 && b > 0 && Divides(d, b)
    ensures Divides(d, a) <==> Divides(d, a % b)
  {
    var q, r := a / b, a % b;
    assert a == b * q + r;
    var kb: nat :| Product(b, d, kb);
    assert b * q == d * (kb * q);
    if Divides(d, a) {
      var ka: nat :| Product(a, d, ka);
      assert r == d * (ka - kb * q);
      LessFactor(-1, ka - kb * q, d) by { assert (-1) * d < 0; assert (ka - kb * q) * d == r; }
      assert Product(r, d, ka - kb * q);
    }
    if Divides(d, r) {
      var kr: nat :| Product(r, d, kr);
      assert a == d * (kb * q + kr);
      assert Product(a, d, kb * q + kr);
    }
  }

  // The result divides both numbers, and every common divisor divides it.
  lemma {:induction false} GcdIsGreatest(a: nat, b: nat, d: nat)
    requires a > 0 || b > 0
    requires d > 0
    ensures Divides(d, GcdOf(a, b)) <==> Divides(d, a) && Divides(d, b)
    decreases b
  {
    if b == 0 {
      assert Product(0, d, 0);
    } else {
      GcdIsGreatest(b, a % b, d);
      if Divides(d, b) {
        DividesRemainder(d, a, b);
      }
    }
  }

  lemma QuotientIsNatural(n: nat, g: nat)
    requires g > 0
    ensures n / g >= 0
  {
    var q, r := n / g, n % g;
    assert q * g + r == n && r < g;
    LessFactor(-1, q, g);
  }

  function Part(n: nat, g: nat): nat
    requires g > 0
  {
    QuotientIsNatural(n, g);
    n / g
  }

  // The label of a canvas: the edges divided by their greatest common divisor.
  function LabelOf(d: Dimensions): (nat, nat) {
    var g := GcdOf(d.width, d.height);
    (Part(d.width, g), Part(d.height, g))
  }

  lemma DividesSelf(n: nat)
    ensures Divides(n, n)
  {
    assert Product(n, n, 1);
  }

  lemma Quotient(n: nat, g: nat)
    requires g > 0 && Divides(g, n)
    ensures n == g * (n / g)
  {
    var k: nat :| Product(n, g, k);
    assert (n / g) * g + n % g == k * g;
    RemainderOfMultiple(n, g, k);
  }

  lemma RemainderOfMultiple(n: nat, g: nat, k: nat)
    requires g > 0 && n == g * k
    ensures n % g == 0
  {
    var q, r := n / g, n % g;
    assert n == g * q + r;
    assert r == g * (k - q);
    LessFactor(k - q, 1, g);
    LessFactor(-1, k - q, g) by { assert (-1) * g < 0; assert (k - q) * g == r; }
  }

  lemma DividesProduct(d: nat, g: nat, n: nat)
    requires Divides(d, n)
    ensures Divides(g * d, g * n)
  {
    var k: nat :| Product(n, d, k);
    assert g * n == (g * d) * k;
    assert Product(g * n, g * d, k);
  }

  lemma DivisorIsSmaller(d: nat, n: nat)
    requires Divides(d, n) && n > 0
    ensures d <= n
  {
    var k: nat :| Product(n, d, k);
    assert k >= 1;
    assert d * k >= d;
  }

  // No number above 1 divides both.
  ghost predicate LowestTerms(w: nat, h: nat) {
    forall d: nat :: d > 0 && Divides(d, w) && Divides(d, h) ==> d == 1
  }

  // The label is the canvas in lowest terms: the same proportion, and no
  // number above 1 divides both parts.
  lemma LabelIsLowest(c: Dimensions)
    requires c.width > 0 && c.height > 0
    ensures var (w, h) := LabelOf(c);
      && 0 < w <= c.width && 0 < h <= c.height && w * c.height == h * c.width && LowestTerms(w, h)
  {
    var g := GcdOf(c.width, c.height);
    var (w, h) := LabelOf(c);
    DividesSelf(g);
    GcdIsGreatest(c.width, c.height, g);
    Quotient(c.width, g);
    Quotient(c.height, g);
    assert w * c.height == h * c.width by {
      assert w * (g * h) == h * (g * w);
    }
    assert 0 < w <= c.width && 0 < h <= c.height by {
      assert Product(c.width, w, g) && Product(c.height, h, g);
      DivisorIsSmaller(w, c.width);
      DivisorIsSmaller(h, c.height);
    }
    forall d: nat | d > 0 && Divides(d, w) && Divides(d, h) ensures d == 1 {
      CommonFactor(c, d);
    }
  }

  lemma CommonFactor(c: Dimensions, d: nat)
    requires c.width > 0 && c.height > 0 && d > 0
    requires Divides(d, LabelOf(c).0) && Divides(d, LabelOf(c).1)
    ensures d == 1
  {
    var g := GcdOf(c.width, c.height);
    DividesSelf(g);
    GcdIsGreatest(c.width, c.height, g);
    Quotient(c.width, g);
    Quotient(c.height, g);
    DividesProduct(d, g, LabelOf(c).0);
    DividesProduct(d, g, LabelOf(c).1);
    assert g * d > 0;
    GcdIsGreatest(c.width, c.height, g * d);
    DivisorIsSmaller(g * d, g);
    LessFactor(d, 2, g);
  }

  lemma RemainderOfProducts(k: nat, a: nat, b: nat)
    requires k > 0 && b > 0
    ensures k * b > 0 && (k * a) % (k * b) == k * (a % b)
  {
    var q, r := a / b, a % b;
    assert k * a == (k * b) * q + k * r by { assert a == b * q + r; }
    assert k * b > 0 && 0 <= k * r < k * b;
    RemainderIs(k * a, k * b, q, k * r);
  }

  lemma RemainderIs(n: nat, d: nat, q: int, r: nat)
    requires d > 0 && n == d * q + r && r < d
    ensures n % d == r
  {
    var p := n / d - q;
    assert n == d * (n / d) + n % d;
    assert p * d == r - n % d;
    LessFactor(p, 1, d);
    LessFactor(-1, p, d);
  }

  lemma {:induction false} GcdOfMultiples(k: nat, a: nat, b: nat)
    requires k > 0 && a > 0
    ensures GcdOf(k * a, k * b) == k * GcdOf(a, b)
    decreases b
  {
    if b == 0 {
      assert k * a > 0;
    } else {
      RemainderOfProducts(k, a, b);
      GcdOfMultiples(k, b, a % b);
    }
  }

  lemma LowestMeansGcdOne(w: nat, h: nat)
    requires w > 0 && LowestTerms(w, h)
    ensures GcdOf(w, h) == 1
  {
    DividesSelf(GcdOf(w, h));
    GcdIsGreatest(w, h, GcdOf(w, h));
  }

  lemma ProportionalGcd(w: nat, h: nat, v: nat, k: nat)
    requires w > 0 && v > 0 && w * k == v * h
    ensures w * GcdOf(v, k) == v * GcdOf(w, h)
  {
    GcdOfMultiples(w, v, k);
    GcdOfMultiples(v, w, h);
    assert w * v == v * w;
  }

  lemma EqualFactor(a: int, b: int, d: nat)
    requires d > 0 && a * d == b * d
    ensures a == b
  {
    assert (a - b) * d == 0;
  }

  // And it is the only one: two positive fractions of one proportion, both in
  // lowest terms, are the same.
  lemma LowestIsUnique(w: nat, h: nat, v: nat, k: nat)
    requires w > 0 && v > 0 && w * k == v * h
    requires LowestTerms(w, h) && LowestTerms(v, k)
    ensures w == v && h == k
  {
    LowestMeansGcdOne(w, h);
    LowestMeansGcdOne(v, k);
    ProportionalGcd(w, h, v, k);
    EqualFactor(h, k, v);
  }

  function RatioText(parts: (nat, nat)): string { Decimal(parts.0) + ":" + Decimal(parts.1) }

  method Label(d: Dimensions) returns (text: string)
    ensures text == RatioText(LabelOf(d))
  {
    var g := Gcd(d.width, d.height);
    text := RatioText((Part(d.width, g), Part(d.height, g)));
  }

  // The text is a ratio of two numbers in lowest terms, the proportion of the
  // canvas. By OneProportionText there is only one such text.
  ghost predicate StatesProportion(text: string, d: Dimensions) {
    exists w: nat, h: nat ::
      text == RatioText((w, h)) && w > 0 && h > 0 && w * d.height == h * d.width && LowestTerms(w, h)
  }

  lemma ProportionsAgree(w: nat, h: nat, v: nat, k: nat, d: Dimensions)
    requires d.width > 0 && d.height > 0
    requires w * d.height == h * d.width && v * d.height == k * d.width
    ensures w * k == v * h
  {
    assert (w * k) * d.width == w * (v * d.height);
    assert (v * h) * d.width == v * (w * d.height);
    EqualFactor(w * k, v * h, d.width);
  }

  lemma OneProportionText(a: string, b: string, d: Dimensions)
    requires d.width > 0 && d.height > 0 && StatesProportion(a, d) && StatesProportion(b, d)
    ensures a == b
  {
    var w: nat, h: nat :|
      a == RatioText((w, h)) && w > 0 && h > 0 && w * d.height == h * d.width && LowestTerms(w, h);
    var v: nat, k: nat :|
      b == RatioText((v, k)) && v > 0 && k > 0 && v * d.height == k * d.width && LowestTerms(v, k);
    ProportionsAgree(w, h, v, k, d);
    LowestIsUnique(w, h, v, k);
  }

  // aspect_ratio: the ratio of the request, unchecked, or else the proportion
  // of its canvas; it fails exactly when there is neither.
  method AspectRatio(r: Request) returns (text: Result<string, SizeError>)
    ensures text.Err? <==> r.aspectRatio.None? && DimensionsOf(r).Err?
    ensures text.Err? ==> text.error == DimensionsOf(r).error
    ensures text.Ok? && r.aspectRatio.Some? ==> text.value == r.aspectRatio.value
    ensures text.Ok? && r.aspectRatio.None? ==> StatesProportion(text.value, DimensionsOf(r).value)
  {
    if r.aspectRatio.Some? {
      return Ok(r.aspectRatio.value);
    }
    var dims := DimensionsOf(r);
    if dims.Err? {
      return Err(dims.error);
    }
    var ratio := Label(dims.value);
    text := Ok(ratio);
    DimensionsAreValid(r);
    LabelIsLowest(dims.value);
  }

  // ---------------------------------------------------------- the size text

  lemma PairReadsBack(first: string, separator: char, second: string)
    requires forall i :: 0 <= i < |first| ==> first[i] != separator
    ensures SplitOnce(first + [separator] + second, separator) == Some((first, second))
  {
    var text := first + [separator] + second;
    FindAt(text, separator, |first|);
    assert text[..|first|] == first && text[|first| + 1..] == second;
  }

  // The size sent to the provider reads back as the canvas.
  lemma SizeReadsBack(d: Dimensions)
    requires d.width <= MAX_U32 && d.height <= MAX_U32
    ensures ParseSize(SizeText(d)) == Some((d.width, d.height))
  {
    var text := SizeText(d);
    assert IsDigit(text[0]) && IsDigit(text[|text| - 1]);
    TrimProperty(text);
    assert Lower(text) == text;
    PairReadsBack(Decimal(d.width), 'x', Decimal(d.height));
    ParseDecimal(d.width, MAX_U32);
    ParseDecimal(d.height, MAX_U32);
  }

  // The label of a canvas parses as its two numbers.
  lemma LabelReadsBack(d: Dimensions)
    requires 0 < d.width <= MAX_U32 && 0 < d.height <= MAX_U32
    ensures ParseRatio(RatioText(LabelOf(d))) == Some(LabelOf(d))
  {
    var (w, h) := LabelOf(d);
    LabelIsLowest(d);
    var text := RatioText((w, h));
    assert IsDigit(text[0]) && IsDigit(text[|text| - 1]);
    TrimProperty(text);
    PairReadsBack(Decimal(w), ':', Decimal(h));
    ParseDecimal(w, MAX_U32);
    ParseDecimal(h, MAX_U32);
  }

  lemma RoundedShare(w: nat, h: nat, long: nat, short: nat)
    requires w > 0 && w * short == h * long
    ensures Rounded(long * h, w) == short
  {
    RoundedWhole(long * h, w, short);
  }

  // A canvas made from an aspect ratio is made again from its own label, so
  // that label and canvas determine each other.
  lemma LabelGivesCanvas(w: nat, h: nat)
    requires w > 0 && h > 0
    ensures var d := RatioCanvas(w, h);
      DimensionsOf(Request(None, None, None, Some(RatioText(LabelOf(d))))) == Ok(d)
  {
    var d := RatioCanvas(w, h);
    RatioCanvasFits(w, h);
    LabelIsLowest(d);
    LabelReadsBack(d);
    var (v, k) := LabelOf(d);
    CanvasOfProportion(d, v, k);
  }

  lemma LessProduct(a: nat, b: nat, c: nat, d: nat)
    requires a < b && c <= d && d > 0
    ensures a * c < b * d
  {
    assert a * (d - c) >= 0;
    assert (b - a) * d > 0;
  }

  lemma SameOrder(v: nat, k: nat, w: nat, h: nat)
    requires w > 0 && h > 0 && v > 0 && v * h == k * w
    ensures v >= k <==> w >= h
  {
    if v < k && w >= h { LessProduct(v, k, h, w); }
    if v >= k && w < h { LessProduct(w, h, k, v); }
  }

  lemma RoundedStays(edge: nat)
    requires edge % 16 == 0 && edge >= 64
    ensures RoundTo16(edge) == edge
  {
  }

  lemma CanvasOfProportion(d: Dimensions, v: nat, k: nat)
    requires Max(d.width, d.height) == 1024 && d.width % 16 == 0 && d.height % 16 == 0
    requires d.width >= 64 && d.height >= 64
    requires v > 0 && k > 0 && v * d.height == k * d.width
    ensures RatioCanvas(v, k) == d
  {
    SameOrder(v, k, d.width, d.height);
    RoundedStays(d.width);
    RoundedStays(d.height);
    if v >= k {
      RoundedShare(v, k, 1024, d.height);
    } else {
      RoundedShare(k, v, 1024, d.width);
    }
  }
}
