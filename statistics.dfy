/** ImageStatistics.calculate_stats: the statistics dictionary built key by
    key from the requested statistic names. Integer fields are computed
    exactly; ratios are kept as numerator and denominator; standard
    deviations and means are only marked as measured. */
module ImageStatistics {
  import opened Common
  import M = Masks
  import opened ImageProcessing

  /** The keys calculate_stats and the logger write; Name gives the string
      the dictionary holds. */
  datatype Key =
    | Path | ResWidth | ResHeight | NPixels | LeftOffset | RightOffset | TopOffset | BottomOffset
    | Width | Height | BoundingBoxArea | CharacterSize | SizeToImageRatio | SizeToBoundingBoxRatio
    | VarietyRed | VarietyGreen | VarietyBlue | Brightness

  function Name(k: Key): string
  {
    match k
    case Path => "Path"
    case ResWidth => "ResWidth"
    case ResHeight => "ResHeight"
    case NPixels => "N_Pixels"
    case LeftOffset => "LeftOffset"
    case RightOffset => "RightOffset"
    case TopOffset => "TopOffset"
    case BottomOffset => "BottomOffset"
    case Width => "Width"
    case Height => "Height"
    case BoundingBoxArea => "BoundingBoxArea"
    case CharacterSize => "CharacterSize"
    case SizeToImageRatio => "SizeToImageRatio"
    case SizeToBoundingBoxRatio => "SizeToBoundingBoxRatio"
    case VarietyRed => "VarietyRed"
    case VarietyGreen => "VarietyGreen"
    case VarietyBlue => "VarietyBlue"
    case Brightness => "Brightness"
  }

  /** The key a dictionary string names, if any. */
  function KeyOf(s: string): Option<Key>
  {
    if s == "Path" then Some(Path)
    else if s == "ResWidth" then Some(ResWidth)
    else if s == "ResHeight" then Some(ResHeight)
    else if s == "N_Pixels" then Some(NPixels)
    else if s == "LeftOffset" then Some(LeftOffset)
    else if s == "RightOffset" then Some(RightOffset)
    else if s == "TopOffset" then Some(TopOffset)
    else if s == "BottomOffset" then Some(BottomOffset)
    else if s == "Width" then Some(Width)
    else if s == "Height" then Some(Height)
    else if s == "BoundingBoxArea" then Some(BoundingBoxArea)
    else if s == "CharacterSize" then Some(CharacterSize)
    else if s == "SizeToImageRatio" then Some(SizeToImageRatio)
    else if s == "SizeToBoundingBoxRatio" then Some(SizeToBoundingBoxRatio)
    else if s == "VarietyRed" then Some(VarietyRed)
    else if s == "VarietyGreen" then Some(VarietyGreen)
    else if s == "VarietyBlue" then Some(VarietyBlue)
    else if s == "Brightness" then Some(Brightness)
    else None
  }

  /** Every key's name reads back as that key. */
  lemma NameRoundTrip(k: Key)
    ensures KeyOf(Name(k)) == Some(k)
  {
  }

  /** Distinct keys are distinct strings, so a dictionary over Key is one over their names. */
  lemma NameInjective(a: Key, b: Key)
    ensures Name(a) == Name(b) <==> a == b
  {
    NameRoundTrip(a);
    NameRoundTrip(b);
  }

  /** A value of the statistics dictionary. */
  datatype StatValue =
    | IntV(n: int)                  // an exact integer
    | RatioV(num: int, den: int)    // the float num / den, den != 0
    | Measured                      // a float from np.std or np.mean, not computed here
    | StrV(s: string)               // a path

  type Stats = map<Key, StatValue>

  /** `'Variety' + colors[i]` for the three colour names. */
  const VarietyKeys: seq<Key> := [VarietyRed, VarietyGreen, VarietyBlue]

  /** The statistics calculate_stats knows, one per branch of its loop. */
  datatype Statistic =
    | Resolution | PixelCount | Offsets | Sizes | BoundingBox | CharSize | Ratios | Variety | Lightness

  /** The branch a statistic name selects, with the aliases the source accepts. */
  function Kind(stat: string): Option<Statistic>
  {
    if stat == "resolution" then Some(Resolution)
    else if stat == "n_pixels" then Some(PixelCount)
    else if stat == "offset" || stat == "offsets" then Some(Offsets)
    else if stat == "size" || stat == "sizes" then Some(Sizes)
    else if stat == "bbox" || stat == "bounding box" then Some(BoundingBox)
    else if stat == "character size" || stat == "char size" then Some(CharSize)
    else if stat == "ratio" || stat == "ratios" then Some(Ratios)
    else if stat == "color variety" || stat == "variety" then Some(Variety)
    else if stat == "brightness" then Some(Lightness)
    else None
  }

  predicate Recognized(stat: string)
  {
    Kind(stat).Some?
  }

  /** Exactly these fifteen names are recognised. */
  lemma RecognizedNames(stat: string)
    ensures Recognized(stat) <==>
              stat in {"resolution", "n_pixels", "offset", "offsets", "size", "sizes", "bbox", "bounding box",
                       "character size", "char size", "ratio", "ratios", "color variety", "variety", "brightness"}
  {
  }

  /** d[key] where the value must be an integer. */
  function IntEntry(d: Stats, key: Key): (r: Result<int>)
    ensures r.Success? <==> key in d && d[key].IntV?
    ensures r.Success? ==> d[key] == IntV(r.value)
    ensures !r.Success? ==> r == Failure(KeyError(Name(key)))
  {
    if key in d && d[key].IntV? then Success(d[key].n) else Failure(KeyError(Name(key)))
  }

  /** What calculate_stats reads of an image: its shape, the four mask
      offsets, the opaque pixel count and whether any pixel is opaque. */
  datatype Facts = Facts(height: nat, width: nat, depth: nat, left: int, right: int, top: int, bottom: int,
                         count: nat, visible: bool)

  function FactsOf(img: Picture): (f: Facts)
    requires img.depth >= 1
    ensures f.height == img.height && f.width == img.width && f.depth == img.depth
  {
    var m := AlphaMask(img);
    Facts(img.height, img.width, img.depth, M.LeftOffset(m), M.RightOffset(m), M.TopOffset(m),
          M.BottomOffset(m), M.CountTrue(m), M.NonEmpty(m))
  }

  /** `mask.shape[1] - right - left`, the width of the character's box. */
  function SizeWidth(f: Facts): int
  {
    f.width - f.right - f.left
  }

  /** `mask.shape[0] - top - bottom`, the height of the character's box. */
  function SizeHeight(f: Facts): int
  {
    f.height - f.top - f.bottom
  }

  /** The area `Width * Height` used when the size statistics are present. */
  function BoxArea(f: Facts): int
  {
    SizeWidth(f) * SizeHeight(f)
  }

  /** The area computed when they are not, as the expression parses:
      `W - R - (L * H) - T - B`. */
  function FallbackArea(f: Facts): int
  {
    f.width - f.right - f.left * f.height - f.top - f.bottom
  }

  /** `char_size / area`, or the -1 sentinel for a zero area. */
  function BoxRatio(charSize: int, area: int): StatValue
  {
    if area != 0 then RatioV(charSize, area) else IntV(-1)
  }

  /** `char_size / n_pixels`, or -1 for an image without pixels. */
  function ImageRatio(f: Facts): StatValue
  {
    var n := f.height * f.width;
    if n != 0 then RatioV(f.count, n) else IntV(-1)
  }

  /** np.std / np.mean over the opaque pixels, or -1 when there are none. */
  function MaskedMeasure(f: Facts): StatValue
  {
    if f.visible then Measured else IntV(-1)
  }

  /** How many values calculate_colors_std returns: the colour channels of an
      RGBA image, every channel otherwise, three -1s when nothing is opaque. */
  function VarietyCount(f: Facts): nat
  {
    if !f.visible then 3 else if f.depth == 4 then 3 else f.depth
  }

  /** The variety values fit the three colour names. */
  predicate VarietyFits(f: Facts)
  {
    VarietyCount(f) <= 3
  }

  /** `for i, v in enumerate(variety): d['Variety' + colors[i]] = int(v)`
      from the i-th value on; indexing past the three names raises IndexError. */
  function AddVariety(d: Stats, f: Facts, i: nat): Result<Stats>
    requires i <= VarietyCount(f)
    decreases VarietyCount(f) - i
  {
    if i == VarietyCount(f) then Success(d)
    else if i >= |VarietyKeys| then Failure(IndexError)
    else AddVariety(d[VarietyKeys[i] := MaskedMeasure(f)], f, i + 1)
  }

  /** `right + left` and `top + bottom`, read back from the offsets already in d. */
  function SizesFromEntries(d: Stats): Result<(int, int)>
  {
    match IntEntry(d, RightOffset)
    case Failure(e) => Failure(e)
    case Success(right) =>
      match IntEntry(d, LeftOffset)
      case Failure(e) => Failure(e)
      case Success(left) =>
        match IntEntry(d, TopOffset)
        case Failure(e) => Failure(e)
        case Success(top) =>
          match IntEntry(d, BottomOffset)
          case Failure(e) => Failure(e)
          case Success(bottom) => Success((right + left, top + bottom))
  }

  /** `d['Width'] * d['Height']`. */
  function AreaFromEntries(d: Stats): Result<int>
  {
    match IntEntry(d, Width)
    case Failure(e) => Failure(e)
    case Success(w) =>
      match IntEntry(d, Height)
      case Failure(e) => Failure(e)
      case Success(h) => Success(w * h)
  }

  /** The bounding-box area the "ratio" branch uses when d has no BoundingBoxArea. */
  function RatioArea(d: Stats, f: Facts): Result<int>
  {
    if Width in d then AreaFromEntries(d) else Success(FallbackArea(f))
  }

  /** The "ratio" branch: both ratios, from CharacterSize and BoundingBoxArea
      when present. */
  function AddRatios(d: Stats, f: Facts): Result<Stats>
  {
    var charSize := if CharacterSize in d then IntEntry(d, CharacterSize) else Success(f.count);
    match charSize
    case Failure(e) => Failure(e)
    case Success(ch) =>
      var n := f.height * f.width;
      var d1 := d[SizeToImageRatio := if n != 0 then RatioV(ch, n) else IntV(-1)];
      var area := if BoundingBoxArea in d1 then IntEntry(d1, BoundingBoxArea) else RatioArea(d1, f);
      match area
      case Failure(e) => Failure(e)
      case Success(a) => Success(d1[SizeToBoundingBoxRatio := BoxRatio(ch, a)])
  }

  /** One branch of the loop body, for a recognised statistic. */
  function Apply(d: Stats, kind: Statistic, f: Facts): Result<Stats>
  {
    match kind
    case Resolution => Success(d[ResWidth := IntV(f.width)][ResHeight := IntV(f.height)])
    case PixelCount => Success(d[NPixels := IntV(f.height * f.width)])
    case Offsets =>
      Success(d[LeftOffset := IntV(f.left)][RightOffset := IntV(f.right)]
               [TopOffset := IntV(f.top)][BottomOffset := IntV(f.bottom)])
    case Sizes =>
      if RightOffset in d then
        match SizesFromEntries(d)
        case Failure(e) => Failure(e)
        case Success(sums) =>
          Success(d[Width := IntV(f.width - sums.0)][Height := IntV(f.height - sums.1)])
      else
        Success(d[Width := IntV(SizeWidth(f))][Height := IntV(SizeHeight(f))])
    case BoundingBox =>
      if Width in d then
        match AreaFromEntries(d)
        case Failure(e) => Failure(e)
        case Success(a) => Success(d[BoundingBoxArea := IntV(a)])
      else
        Success(d[BoundingBoxArea := IntV(FallbackArea(f))])
    case CharSize => Success(d[CharacterSize := IntV(f.count)])
    case Ratios => AddRatios(d, f)
    case Variety => AddVariety(d, f, 0)
    case Lightness => Success(d[Brightness := MaskedMeasure(f)])
  }

  /** One pass of the `for stat in self.stats` loop; an unknown name raises. */
  function StatStep(d: Stats, stat: string, f: Facts): Result<Stats>
  {
    match Kind(stat)
    case None => Failure(UnrecognizedStatistic(stat))
    case Some(kind) => Apply(d, kind, f)
  }

  /** The rest of the loop, from dictionary d on. */
  function Fold(d: Stats, stats: seq<string>, f: Facts): Result<Stats>
    decreases |stats|
  {
    if stats == [] then Success(d)
    else match StatStep(d, stats[0], f)
      case Failure(e) => Failure(e)
      case Success(d1) => Fold(d1, stats[1..], f)
  }

  /** The dictionary calculate_stats computes for an image; `image[..., -1]`
      raises IndexError on an image without channels. */
  function StatsOf(stats: seq<string>, img: Picture): Result<Stats>
  {
    if img.depth == 0 then Failure(IndexError) else Fold(map[], stats, FactsOf(img))
  }

  /** The loop of calculate_stats, over the requested names in order; the
      offsets are found by the scanning loops of get_*_offset. */
  method ComputeStatistics(stats: seq<string>, img: Picture) returns (r: Result<Stats>)
    ensures r == StatsOf(stats, img)
  {
    if img.depth == 0 {
      return Failure(IndexError);
    }
    var m := AlphaMask(img);
    var left := M.GetLeftOffset(m);
    var right := M.GetRightOffset(m);
    var top := M.GetTopOffset(m);
    var bottom := M.GetBottomOffset(m);
    var f := Facts(img.height, img.width, img.depth, left, right, top, bottom, M.CountTrue(m), M.NonEmpty(m));
    var d: Stats := map[];
    var i := 0;
    while i < |stats|
      invariant 0 <= i <= |stats|
      invariant Fold(d, stats[i..], f) == StatsOf(stats, img)
    {
      var step := StatStep(d, stats[i], f);
      if step.Failure? {
        return Failure(step.error);
      }
      assert stats[i..][1..] == stats[i + 1..];
      d := step.value;
      i := i + 1;
    }
    return Success(d);
  }

  /** An entry, when present, has the value v. */
  predicate Holds(d: Stats, key: Key, v: StatValue)
  {
    key in d ==> d[key] == v
  }

  /** Every entry the dictionary can hold has the value its statistic
      defines for this image: the offsets, and Width with Height, are added
      together; the bounding-box area is one of its two formulas, depending
      on whether the sizes came first, and the box ratio follows it. Which
      formula applies is fixed by the order of the names: see Tracked and
      StatsOfOrder. */
  predicate Canonical(d: Stats, f: Facts)
  {
    Path !in d &&
    Holds(d, ResWidth, IntV(f.width)) && Holds(d, ResHeight, IntV(f.height)) &&
    Holds(d, NPixels, IntV(f.height * f.width)) &&
    (RightOffset in d ==> LeftOffset in d && TopOffset in d && BottomOffset in d) &&
    Holds(d, LeftOffset, IntV(f.left)) && Holds(d, RightOffset, IntV(f.right)) &&
    Holds(d, TopOffset, IntV(f.top)) && Holds(d, BottomOffset, IntV(f.bottom)) &&
    (Width in d ==> Height in d) &&
    Holds(d, Width, IntV(SizeWidth(f))) && Holds(d, Height, IntV(SizeHeight(f))) &&
    (BoundingBoxArea in d ==>
       d[BoundingBoxArea] == IntV(BoxArea(f)) || d[BoundingBoxArea] == IntV(FallbackArea(f))) &&
    Holds(d, CharacterSize, IntV(f.count)) &&
    Holds(d, SizeToImageRatio, ImageRatio(f)) &&
    (SizeToBoundingBoxRatio in d ==>
       d[SizeToBoundingBoxRatio] == BoxRatio(f.count, BoxArea(f)) ||
       d[SizeToBoundingBoxRatio] == BoxRatio(f.count, FallbackArea(f))) &&
    Holds(d, VarietyRed, MaskedMeasure(f)) && Holds(d, VarietyGreen, MaskedMeasure(f)) &&
    Holds(d, VarietyBlue, MaskedMeasure(f)) && Holds(d, Brightness, MaskedMeasure(f))
  }

  /** The variety loop succeeds exactly when the values fit the colour names
      (or none are left), and writes only measured or sentinel values. */
  lemma {:induction false} AddVarietyCanonical(d: Stats, f: Facts, i: nat)
    requires i <= VarietyCount(f) && Canonical(d, f)
    ensures AddVariety(d, f, i).Success? <==> VarietyFits(f) || i == VarietyCount(f)
    ensures AddVariety(d, f, i).Success? ==> Canonical(AddVariety(d, f, i).value, f)
    ensures AddVariety(d, f, i).Failure? ==> AddVariety(d, f, i).error == IndexError
    decreases VarietyCount(f) - i
  {
    if i < VarietyCount(f) && i < |VarietyKeys| {
      AddVarietyCanonical(d[VarietyKeys[i] := MaskedMeasure(f)], f, i + 1);
    }
  }

  lemma SizesCanonical(d: Stats, f: Facts)
    requires Canonical(d, f)
    ensures Apply(d, Sizes, f).Success? && Canonical(Apply(d, Sizes, f).value, f)
  {
  }

  /** The bbox branch: Width * Height when the sizes are already in the
      dictionary, the fallback formula otherwise. */
  lemma BoxCanonical(d: Stats, f: Facts)
    requires Canonical(d, f)
    ensures Apply(d, BoundingBox, f).Success? && Canonical(Apply(d, BoundingBox, f).value, f)
    ensures Width in d ==> Apply(d, BoundingBox, f).value[BoundingBoxArea] == IntV(BoxArea(f))
    ensures Width !in d ==> Apply(d, BoundingBox, f).value[BoundingBoxArea] == IntV(FallbackArea(f))
  {
  }

  /** The ratio branch: the image ratio, and the box ratio over the area
      already in the dictionary, else over Width * Height when the sizes
      are there, else over the fallback formula. */
  lemma RatiosCanonical(d: Stats, f: Facts)
    requires Canonical(d, f)
    ensures AddRatios(d, f).Success? && Canonical(AddRatios(d, f).value, f)
    ensures AddRatios(d, f).value[SizeToImageRatio] == ImageRatio(f)
    ensures BoundingBoxArea in d ==>
              AddRatios(d, f).value[SizeToBoundingBoxRatio] == BoxRatio(f.count, d[BoundingBoxArea].n)
    ensures BoundingBoxArea !in d && Width in d ==>
              AddRatios(d, f).value[SizeToBoundingBoxRatio] == BoxRatio(f.count, BoxArea(f))
    ensures BoundingBoxArea !in d && Width !in d ==>
              AddRatios(d, f).value[SizeToBoundingBoxRatio] == BoxRatio(f.count, FallbackArea(f))
  {
    assert IntEntry(d, CharacterSize).Success? ==> IntEntry(d, CharacterSize).value == f.count;
    var d1 := d[SizeToImageRatio := ImageRatio(f)];
    assert Canonical(d1, f);
    if BoundingBoxArea in d1 {
      assert IntEntry(d1, BoundingBoxArea).Success?;
    } else if Width in d1 {
      assert AreaFromEntries(d1) == Success(BoxArea(f));
    }
  }

  /** The branches that only write values of the image itself. */
  lemma DirectCanonical(d: Stats, kind: Statistic, f: Facts)
    requires Canonical(d, f) && kind in {Resolution, PixelCount, Offsets, CharSize, Lightness}
    ensures Apply(d, kind, f).Success? && Canonical(Apply(d, kind, f).value, f)
  {
    if kind == Offsets {
      var e := d[LeftOffset := IntV(f.left)][RightOffset := IntV(f.right)];
      assert Canonical(e[TopOffset := IntV(f.top)][BottomOffset := IntV(f.bottom)], f);
    }
  }

  /** Every branch keeps the dictionary canonical; only the variety branch
      can fail, with IndexError, when the values do not fit the colour names. */
  lemma ApplyCanonical(d: Stats, kind: Statistic, f: Facts)
    requires Canonical(d, f)
    ensures Apply(d, kind, f).Success? <==> (kind == Variety ==> VarietyFits(f))
    ensures Apply(d, kind, f).Success? ==> Canonical(Apply(d, kind, f).value, f)
    ensures Apply(d, kind, f).Failure? ==> Apply(d, kind, f).error == IndexError
  {
    match kind
    case Variety => AddVarietyCanonical(d, f, 0);
    case Sizes => SizesCanonical(d, f);
    case BoundingBox => BoxCanonical(d, f);
    case Ratios => RatiosCanonical(d, f);
    case _ => DirectCanonical(d, kind, f);
  }

  /** One pass keeps the dictionary canonical; it fails exactly on an unknown
      name (with that name) or on a variety that does not fit the colour names. */
  lemma StepCanonical(d: Stats, stat: string, f: Facts)
    requires Canonical(d, f)
    ensures StatStep(d, stat, f).Success? <==> Recognized(stat) && (Kind(stat) == Some(Variety) ==> VarietyFits(f))
    ensures StatStep(d, stat, f).Success? ==> Canonical(StatStep(d, stat, f).value, f)
    ensures StatStep(d, stat, f).Failure? ==>
              StatStep(d, stat, f).error == if Recognized(stat) then IndexError else UnrecognizedStatistic(stat)
  {
    if Kind(stat).Some? {
      ApplyCanonical(d, Kind(stat).value, f);
    }
  }

  /** VarietyFits, in terms of the image: the values fit unless the
      character is visible in an image of five channels or more. */
  lemma VarietyFitsMeaning(f: Facts)
    ensures VarietyFits(f) <==> !f.visible || f.depth <= 4
  {
  }

  /** The keys a branch adds to the dictionary. */
  function Added(kind: Statistic, f: Facts): set<Key>
  {
    match kind
    case Resolution => {ResWidth, ResHeight}
    case PixelCount => {NPixels}
    case Offsets => {LeftOffset, RightOffset, TopOffset, BottomOffset}
    case Sizes => {Width, Height}
    case BoundingBox => {BoundingBoxArea}
    case CharSize => {CharacterSize}
    case Ratios => {SizeToImageRatio, SizeToBoundingBoxRatio}
    case Variety => VarietyFrom(f, 0)
    case Lightness => {Brightness}
  }

  /** The colour keys from the i-th value on. */
  function VarietyFrom(f: Facts, i: nat): set<Key>
  {
    set j | i <= j < VarietyCount(f) && j < |VarietyKeys| :: VarietyKeys[j]
  }

  lemma {:induction false} AddVarietyKeys(d: Stats, f: Facts, i: nat)
    requires i <= VarietyCount(f) && AddVariety(d, f, i).Success?
    ensures AddVariety(d, f, i).value.Keys == d.Keys + VarietyFrom(f, i)
    decreases VarietyCount(f) - i
  {
    if i < VarietyCount(f) {
      var d1 := d[VarietyKeys[i] := MaskedMeasure(f)];
      AddVarietyKeys(d1, f, i + 1);
      assert VarietyFrom(f, i) == {VarietyKeys[i]} + VarietyFrom(f, i + 1);
    } else {
      assert VarietyFrom(f, i) == {};
    }
  }

  /** A branch that succeeds adds exactly its own keys and removes none. */
  lemma ApplyKeys(d: Stats, kind: Statistic, f: Facts)
    requires Apply(d, kind, f).Success?
    ensures Apply(d, kind, f).value.Keys == d.Keys + Added(kind, f)
  {
    if kind == Variety {
      AddVarietyKeys(d, f, 0);
    }
  }

  /** A statistic the loop gets past. */
  predicate Accepted(stat: string, f: Facts)
  {
    Recognized(stat) && (Kind(stat) == Some(Variety) ==> VarietyFits(f))
  }

  /** The exception a statistic the loop cannot get past raises. */
  function Rejection(stat: string): Error
  {
    if Recognized(stat) then IndexError else UnrecognizedStatistic(stat)
  }

  /** The keys the requested statistics add, in any order. */
  function AddedAll(stats: seq<string>, f: Facts): set<Key>
    decreases |stats|
  {
    if stats == [] then {}
    else (if Recognized(stats[0]) then Added(Kind(stats[0]).value, f) else {}) + AddedAll(stats[1..], f)
  }

  /** A loop that succeeds keeps the dictionary canonical and adds exactly
      the keys of the statistics it went through. */
  lemma {:induction false} FoldCanonical(d: Stats, stats: seq<string>, f: Facts)
    requires Canonical(d, f) && Fold(d, stats, f).Success?
    ensures Canonical(Fold(d, stats, f).value, f)
    ensures Fold(d, stats, f).value.Keys == d.Keys + AddedAll(stats, f)
    decreases |stats|
  {
    if stats != [] {
      var kind, d1 := FoldStep(d, stats, f);
      ApplyCanonical(d, kind, f);
      ApplyKeys(d, kind, f);
      FoldCanonical(d1, stats[1..], f);
    }
  }

  /** The loop gets through exactly when every statistic is accepted, and
      otherwise raises what the first rejected one raises. */
  lemma {:induction false} FoldOutcome(d: Stats, stats: seq<string>, f: Facts)
    requires Canonical(d, f)
    ensures Fold(d, stats, f).Success? <==> forall i :: 0 <= i < |stats| ==> Accepted(stats[i], f)
    ensures Fold(d, stats, f).Failure? ==>
              exists i :: 0 <= i < |stats| && !Accepted(stats[i], f) && Fold(d, stats, f).error == Rejection(stats[i]) &&
                forall j :: 0 <= j < i ==> Accepted(stats[j], f)
    decreases |stats|
  {
    if stats != [] {
      StepCanonical(d, stats[0], f);
      var step := StatStep(d, stats[0], f);
      if step.Success? {
        FoldOutcome(step.value, stats[1..], f);
        if Fold(d, stats, f).Failure? {
          var i :| 0 <= i < |stats[1..]| && !Accepted(stats[1..][i], f) &&
                   Fold(step.value, stats[1..], f).error == Rejection(stats[1..][i]) &&
                   forall j :: 0 <= j < i ==> Accepted(stats[1..][j], f);
          assert stats[i + 1] == stats[1..][i];
          assert forall j :: 1 <= j <= i ==> stats[j] == stats[1..][j - 1];
        } else {
          forall i | 1 <= i < |stats|
            ensures Accepted(stats[i], f)
          {
            assert stats[i] == stats[1..][i - 1];
          }
        }
      }
    }
  }

  /** The loop succeeds exactly when every statistic is accepted; it then
      holds exactly the keys they add, each with its defined value, and
      otherwise raises what the first rejected statistic raises. */
  lemma FoldMeaning(d: Stats, stats: seq<string>, f: Facts)
    requires Canonical(d, f)
    ensures Fold(d, stats, f).Success? <==> forall i :: 0 <= i < |stats| ==> Accepted(stats[i], f)
    ensures Fold(d, stats, f).Success? ==>
              Canonical(Fold(d, stats, f).value, f) && Fold(d, stats, f).value.Keys == d.Keys + AddedAll(stats, f)
    ensures Fold(d, stats, f).Failure? ==>
              exists i :: 0 <= i < |stats| && !Accepted(stats[i], f) && Fold(d, stats, f).error == Rejection(stats[i]) &&
                forall j :: 0 <= j < i ==> Accepted(stats[j], f)
  {
    FoldOutcome(d, stats, f);
    if Fold(d, stats, f).Success? {
      FoldCanonical(d, stats, f);
    }
  }

  /** What calculate_stats computes for an image with an alpha channel and
      which exception it raises otherwise. */
  lemma StatsOfMeaning(stats: seq<string>, img: Picture)
    ensures StatsOf(stats, img).Success? <==>
              img.depth >= 1 && forall i :: 0 <= i < |stats| ==> Accepted(stats[i], FactsOf(img))
    ensures StatsOf(stats, img).Success? ==>
              Canonical(StatsOf(stats, img).value, FactsOf(img)) &&
              StatsOf(stats, img).value.Keys == AddedAll(stats, FactsOf(img))
    ensures StatsOf(stats, img).Failure? && img.depth >= 1 ==>
              exists i :: 0 <= i < |stats| && !Accepted(stats[i], FactsOf(img)) &&
                StatsOf(stats, img).error == Rejection(stats[i])
  {
    if img.depth >= 1 {
      FoldMeaning(map[], stats, FactsOf(img));
    }
  }

  // ------------------------------------------- the order of the names

  /** The branch each requested name selects, in order. */
  function Kinds(names: seq<string>): (ks: seq<Option<Statistic>>)
    ensures |ks| == |names|
    decreases |names|
  {
    if names == [] then [] else [Kind(names[0])] + Kinds(names[1..])
  }

  lemma {:induction false} KindsMeaning(names: seq<string>)
    ensures forall i :: 0 <= i < |names| ==> Kinds(names)[i] == Kind(names[i])
    decreases |names|
  {
    if names != [] {
      KindsMeaning(names[1..]);
      assert forall i :: 1 <= i < |names| ==> names[1..][i - 1] == names[i];
    }
  }

  /** The position of the last name before position i that selects the
      given branch, or -1. */
  function LastBefore(ks: seq<Option<Statistic>>, kind: Statistic, i: nat): (j: int)
    requires i <= |ks|
    ensures -1 <= j < i
    decreases i
  {
    if i == 0 then -1 else if ks[i - 1] == Some(kind) then i - 1 else LastBefore(ks, kind, i - 1)
  }

  lemma {:induction false} LastBeforeMeaning(ks: seq<Option<Statistic>>, kind: Statistic, i: nat)
    requires i <= |ks|
    ensures LastBefore(ks, kind, i) == -1 <==> forall j :: 0 <= j < i ==> ks[j] != Some(kind)
    ensures var b := LastBefore(ks, kind, i);
      b >= 0 ==> ks[b] == Some(kind) && forall j :: b < j < i ==> ks[j] != Some(kind)
    decreases i
  {
    if i > 0 && ks[i - 1] != Some(kind) {
      LastBeforeMeaning(ks, kind, i - 1);
    }
  }

  /** Appending a name does not move what lies before it. */
  lemma {:induction false} LastBeforeExtend(ks: seq<Option<Statistic>>, k: Option<Statistic>, kind: Statistic, i: nat)
    requires i <= |ks|
    ensures LastBefore(ks + [k], kind, i) == LastBefore(ks, kind, i)
    decreases i
  {
    if i > 0 {
      assert (ks + [k])[i - 1] == ks[i - 1];
      LastBeforeExtend(ks, k, kind, i - 1);
    }
  }

  /** The area a bbox name at position i computes: Width * Height when a
      size name comes before it, the fallback formula otherwise. */
  function AreaAt(ks: seq<Option<Statistic>>, i: nat, f: Facts): int
    requires i <= |ks|
  {
    if LastBefore(ks, Sizes, i) >= 0 then BoxArea(f) else FallbackArea(f)
  }

  /** The area a ratio name at position q divides by: the one the last bbox
      name before it computed, or, without one, the area computed at q. */
  function RatioAreaAt(ks: seq<Option<Statistic>>, q: nat, f: Facts): int
    requires q <= |ks|
  {
    var b := LastBefore(ks, BoundingBox, q);
    AreaAt(ks, if b >= 0 then b else q, f)
  }

  lemma AreasExtend(ks: seq<Option<Statistic>>, k: Option<Statistic>, i: nat, f: Facts)
    requires i <= |ks|
    ensures AreaAt(ks + [k], i, f) == AreaAt(ks, i, f)
    ensures RatioAreaAt(ks + [k], i, f) == RatioAreaAt(ks, i, f)
  {
    LastBeforeExtend(ks, k, Sizes, i);
    LastBeforeExtend(ks, k, BoundingBox, i);
    var b := LastBefore(ks, BoundingBox, i);
    if b >= 0 {
      LastBeforeExtend(ks, k, Sizes, b);
    }
  }

  /** What the dictionary built by the branches ks remembers of their
      order: Width and the area are present exactly when a size or a bbox
      name was seen, the area is the one the last bbox name computed, and
      the box ratio is the one the last ratio name computed. */
  predicate Tracked(d: Stats, ks: seq<Option<Statistic>>, f: Facts)
  {
    var n := |ks|;
    var b := LastBefore(ks, BoundingBox, n);
    var q := LastBefore(ks, Ratios, n);
    (Width in d <==> LastBefore(ks, Sizes, n) >= 0) &&
    (BoundingBoxArea in d <==> b >= 0) &&
    (BoundingBoxArea in d ==> b >= 0 && d[BoundingBoxArea] == IntV(AreaAt(ks, b, f))) &&
    (SizeToBoundingBoxRatio in d ==>
       q >= 0 && d[SizeToBoundingBoxRatio] == BoxRatio(f.count, RatioAreaAt(ks, q, f)))
  }

  /** A successful variety loop leaves every other key as it was. */
  lemma {:induction false} AddVarietyKeeps(d: Stats, f: Facts, i: nat, k: Key)
    requires i <= VarietyCount(f) && AddVariety(d, f, i).Success? && k !in VarietyFrom(f, i)
    ensures k in AddVariety(d, f, i).value <==> k in d
    ensures k in d ==> AddVariety(d, f, i).value[k] == d[k]
    decreases VarietyCount(f) - i
  {
    if i < VarietyCount(f) {
      assert VarietyKeys[i] in VarietyFrom(f, i);
      AddVarietyKeeps(d[VarietyKeys[i] := MaskedMeasure(f)], f, i + 1, k);
    }
  }

  /** A successful branch leaves every key it does not add as it was. */
  lemma ApplyKeeps(d: Stats, kind: Statistic, f: Facts, k: Key)
    requires Apply(d, kind, f).Success? && k !in Added(kind, f)
    ensures k in Apply(d, kind, f).value <==> k in d
    ensures k in d ==> Apply(d, kind, f).value[k] == d[k]
  {
    if kind == Variety {
      AddVarietyKeeps(d, f, 0, k);
    }
  }

  /** One branch keeps the order remembered. */
  lemma TrackedStep(d: Stats, ks: seq<Option<Statistic>>, kind: Statistic, f: Facts)
    requires Canonical(d, f) && Tracked(d, ks, f) && Apply(d, kind, f).Success?
    ensures Tracked(Apply(d, kind, f).value, ks + [Some(kind)], f)
  {
    var n, e := |ks|, ks + [Some(kind)];
    var d1 := Apply(d, kind, f).value;
    forall k: Statistic
      ensures LastBefore(e, k, n + 1) == if kind == k then n else LastBefore(ks, k, n)
    {
      LastBeforeExtend(ks, Some(kind), k, n);
    }
    var b := LastBefore(ks, BoundingBox, n);
    var q := LastBefore(ks, Ratios, n);
    if b >= 0 {
      AreasExtend(ks, Some(kind), b, f);
    }
    if q >= 0 {
      AreasExtend(ks, Some(kind), q, f);
    }
    AreasExtend(ks, Some(kind), n, f);
    if kind != Sizes {
      ApplyKeeps(d, kind, f, Width);
    }
    if kind != BoundingBox {
      ApplyKeeps(d, kind, f, BoundingBoxArea);
    } else {
      BoxCanonical(d, f);
    }
    if kind != Ratios {
      ApplyKeeps(d, kind, f, SizeToBoundingBoxRatio);
    } else {
      RatiosCanonical(d, f);
    }
    if kind == Sizes {
      assert Width in d1;
    }
  }

  /** One pass of the loop, in terms of the branch it selects. */
  lemma FoldStep(d: Stats, rest: seq<string>, f: Facts) returns (kind: Statistic, d1: Stats)
    requires rest != [] && Fold(d, rest, f).Success?
    ensures Kind(rest[0]) == Some(kind) && Apply(d, kind, f) == Success(d1)
    ensures Fold(d1, rest[1..], f) == Fold(d, rest, f)
  {
    kind := Kind(rest[0]).value;
    d1 := Apply(d, kind, f).value;
  }

  /** The rest of the loop keeps the order remembered. */
  lemma {:induction false} FoldTracked(d: Stats, ks: seq<Option<Statistic>>, rest: seq<string>, f: Facts)
    requires Canonical(d, f) && Tracked(d, ks, f) && Fold(d, rest, f).Success?
    ensures Tracked(Fold(d, rest, f).value, ks + Kinds(rest), f)
    decreases |rest|
  {
    if rest == [] {
      assert ks + Kinds(rest) == ks;
    } else {
      var kind, d1 := FoldStep(d, rest, f);
      ApplyCanonical(d, kind, f);
      TrackedStep(d, ks, kind, f);
      FoldTracked(d1, ks + [Some(kind)], rest[1..], f);
      TrackedShift(Fold(d, rest, f).value, ks, kind, rest, f);
    }
  }

  lemma TrackedShift(x: Stats, ks: seq<Option<Statistic>>, kind: Statistic, rest: seq<string>, f: Facts)
    requires rest != [] && Kind(rest[0]) == Some(kind)
    requires Tracked(x, (ks + [Some(kind)]) + Kinds(rest[1..]), f)
    ensures Tracked(x, ks + Kinds(rest), f)
  {
    KindsCons(ks, kind, rest);
  }

  lemma KindsCons(ks: seq<Option<Statistic>>, kind: Statistic, rest: seq<string>)
    requires rest != [] && Kind(rest[0]) == Some(kind)
    ensures (ks + [Some(kind)]) + Kinds(rest[1..]) == ks + Kinds(rest)
  {
    assert Kinds(rest) == [Some(kind)] + Kinds(rest[1..]);
  }

  /** The order of the requested names decides the two box values: the
      area is Width * Height exactly when a size name comes before the last
      bbox name, and the box ratio divides by the area of the last bbox
      name before the last ratio name or, without one, by the area computed
      at that ratio name. */
  lemma StatsOfOrder(stats: seq<string>, img: Picture)
    requires StatsOf(stats, img).Success?
    ensures var d, f, ks := StatsOf(stats, img).value, FactsOf(img), Kinds(stats);
      var b, q := LastBefore(ks, BoundingBox, |ks|), LastBefore(ks, Ratios, |ks|);
      (Width in d <==> LastBefore(ks, Sizes, |ks|) >= 0) &&
      (BoundingBoxArea in d <==> b >= 0) &&
      (BoundingBoxArea in d ==> b >= 0 && d[BoundingBoxArea] == IntV(AreaAt(ks, b, f))) &&
      (SizeToBoundingBoxRatio in d ==>
         q >= 0 && d[SizeToBoundingBoxRatio] == BoxRatio(f.count, RatioAreaAt(ks, q, f)))
  {
    var f := FactsOf(img);
    assert Tracked(map[], [], f);
    FoldTracked(map[], [], stats, f);
    assert [] + Kinds(stats) == Kinds(stats);
  }

  /** The character is visible exactly when some pixel is opaque, which is
      exactly when it has a pixel to count. */
  lemma FactsVisible(img: Picture)
    requires img.depth >= 1
    ensures FactsOf(img).visible <==>
              exists r, c :: 0 <= r < img.height && 0 <= c < img.width && img.px[r][c][img.depth - 1] == 255
    ensures FactsOf(img).visible <==> FactsOf(img).count > 0
    ensures FactsOf(img).count <= img.height * img.width
  {
    var m := AlphaMask(img);
    AlphaCount(img);
    M.CountTrueBounds(m);
    if M.NonEmpty(m) {
      var r, c :| 0 <= r < m.height && 0 <= c < m.width && m.cells[r][c];
      assert img.px[r][c][img.depth - 1] == 255;
    }
  }

  /** A visible character's box spans at least one column and one row
      inside the image. */
  lemma FactsBox(img: Picture)
    requires img.depth >= 1 && FactsOf(img).visible
    ensures var f := FactsOf(img);
      0 <= f.left && 0 <= f.right && 0 <= f.top && 0 <= f.bottom &&
      1 <= SizeWidth(f) <= f.width && 1 <= SizeHeight(f) <= f.height
  {
    M.OffsetBounds(AlphaMask(img));
  }

  /** Without a visible character every offset is the -1 sentinel, the sizes
      come out as width + 2 and height + 2, and the colour statistics are -1. */
  lemma FactsEmpty(img: Picture)
    requires img.depth >= 1 && !FactsOf(img).visible
    ensures var f := FactsOf(img);
      f.left == -1 && f.right == -1 && f.top == -1 && f.bottom == -1 &&
      SizeWidth(f) == f.width + 2 && SizeHeight(f) == f.height + 2 && MaskedMeasure(f) == IntV(-1)
  {
    M.EmptyMaskOffsets(AlphaMask(img));
  }

  /** A 2 x 2 RGBA image whose only opaque pixel is the top-left one. */
  function Dot(): (img: Picture)
    ensures img.height == 2 && img.width == 2 && img.depth == 4
  {
    Image(2, 2, 4, [[[0, 0, 0, 255], [0, 0, 0, 0]], [[0, 0, 0, 0], [0, 0, 0, 0]]])
  }

  /** Its alpha mask marks the top-left pixel only. */
  lemma DotMask()
    ensures AlphaMask(Dot()) == M.Mask(2, 2, [[true, false], [false, false]])
  {
    var m := AlphaMask(Dot());
    assert m.cells[0][0] && !m.cells[0][1] && !m.cells[1][0] && !m.cells[1][1];
    assert m.cells[0] == [true, false] && m.cells[1] == [false, false];
  }

  /** The offsets and the count of that mask. */
  lemma CornerMask(m: M.Mask)
    requires m == M.Mask(2, 2, [[true, false], [false, false]])
    ensures M.LeftOffset(m) == 0 && M.RightOffset(m) == 1 && M.TopOffset(m) == 0 && M.BottomOffset(m) == 1
    ensures M.CountTrue(m) == 1 && M.NonEmpty(m)
  {
    assert m.cells[0][0];
    assert M.ColumnsAny(m) == [true, false] by {
      assert M.Column(m, 0)[0] && !M.Column(m, 1)[0] && !M.Column(m, 1)[1];
    }
    assert M.RowsAny(m) == [true, false] by {
      assert M.Row(m, 0)[0] && !M.Row(m, 1)[0] && !M.Row(m, 1)[1];
    }
    assert M.CountRow(m.cells[0]) == 1 by {
      assert m.cells[0][..1] == [true];
      assert [true][..0] == [];
    }
    assert M.CountRow(m.cells[1]) == 0 by {
      assert m.cells[1][..1] == [false];
      assert [false][..0] == [];
    }
  }

  /** The facts of Dot(). */
  const DotFacts: Facts := Facts(2, 2, 4, 0, 1, 0, 1, 1, true)

  /** Its facts: a one-pixel character at column 0 and row 0, one column
      from the right edge and one row from the bottom. */
  lemma DotFactsOf()
    ensures FactsOf(Dot()) == DotFacts
  {
    DotMask();
    CornerMask(AlphaMask(Dot()));
  }

  lemma LoneBox()
    ensures Fold(map[], ["bbox"], DotFacts) == Success(map[BoundingBoxArea := IntV(0)])
  {
    assert Kind("bbox") == Some(BoundingBox);
    assert ["bbox"][1..] == [];
  }

  lemma SizesThenBox()
    ensures Fold(map[], ["sizes", "bbox"], DotFacts) ==
              Success(map[Width := IntV(1), Height := IntV(1), BoundingBoxArea := IntV(1)])
  {
    assert Kind("sizes") == Some(Sizes);
    var d := map[Width := IntV(1), Height := IntV(1)];
    assert StatStep(map[], "sizes", DotFacts) == Success(d);
    assert ["sizes", "bbox"][1..] == ["bbox"];
    assert Kind("bbox") == Some(BoundingBox);
    assert AreaFromEntries(d) == Success(1);
    assert ["bbox"][1..] == [];
  }

  lemma LoneRatios(d: Stats)
    requires d == map[BoundingBoxArea := IntV(0)]
    ensures Fold(d, ["ratios"], DotFacts) ==
              Success(d[SizeToImageRatio := RatioV(1, 4)][SizeToBoundingBoxRatio := IntV(-1)])
  {
    assert Kind("ratios") == Some(Ratios);
    var d1 := d[SizeToImageRatio := RatioV(1, 4)];
    assert IntEntry(d1, BoundingBoxArea) == Success(0);
    assert ["ratios"][1..] == [];
  }

  lemma BoxThenRatios()
    ensures Fold(map[], ["bbox", "ratios"], DotFacts) ==
              Success(map[BoundingBoxArea := IntV(0), SizeToImageRatio := RatioV(1, 4),
                          SizeToBoundingBoxRatio := IntV(-1)])
  {
    var d := map[BoundingBoxArea := IntV(0)];
    assert StatStep(map[], "bbox", DotFacts) == Success(d) by {
      assert Kind("bbox") == Some(BoundingBox);
    }
    assert ["bbox", "ratios"][1..] == ["ratios"];
    LoneRatios(d);
  }

  /** The bounding-box area depends on the order of the names: alone it is
      the fallback formula (0 here), after "sizes" it is Width * Height (1);
      and "ratios" after a lone "bbox" divides by that 0, giving the -1
      sentinel although one pixel is opaque. */
  lemma BoundingBoxOrder()
    ensures StatsOf(["bbox"], Dot()) == Success(map[BoundingBoxArea := IntV(0)])
    ensures StatsOf(["sizes", "bbox"], Dot()) ==
              Success(map[Width := IntV(1), Height := IntV(1), BoundingBoxArea := IntV(1)])
    ensures StatsOf(["bbox", "ratios"], Dot()) ==
              Success(map[BoundingBoxArea := IntV(0), SizeToImageRatio := RatioV(1, 4),
                          SizeToBoundingBoxRatio := IntV(-1)])
  {
    DotFactsOf();
    LoneBox();
    SizesThenBox();
    BoxThenRatios();
  }
}
