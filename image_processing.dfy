/** The image side of image_processing.py: images as values and as arrays
    updated in place, background replacement, the crop of process_image and
    the alpha mask the statistics are computed from. */
module ImageProcessing {
  import opened Common
  import opened Masks

  /** An image of shape (height, width, depth): px[row][column][channel]. */
  datatype Image = Image(height: nat, width: nat, depth: nat, px: seq<seq<seq<int>>>)

  predicate Shaped(img: Image)
  {
    |img.px| == img.height &&
    forall r :: 0 <= r < |img.px| ==>
      |img.px[r]| == img.width && forall c :: 0 <= c < |img.px[r]| ==> |img.px[r][c]| == img.depth
  }

  /** Images whose pixel rows agree with their shape. */
  type Picture = img: Image | Shaped(img) witness Image(0, 0, 0, [])

  /** The value an array holds now. */
  function ValueOf(a: array3<int>): (img: Picture)
    reads a
    ensures img.height == a.Length0 && img.width == a.Length1 && img.depth == a.Length2
    ensures forall r, c, k :: 0 <= r < a.Length0 && 0 <= c < a.Length1 && 0 <= k < a.Length2 ==>
              img.px[r][c][k] == a[r, c, k]
  {
    Image(a.Length0, a.Length1, a.Length2,
      seq(a.Length0, r requires 0 <= r < a.Length0 reads a =>
        seq(a.Length1, c requires 0 <= c < a.Length1 reads a =>
          seq(a.Length2, k requires 0 <= k < a.Length2 reads a => a[r, c, k]))))
  }

  /** Two pictures of one shape that agree on every channel value are equal. */
  lemma PictureExtensional(x: Picture, y: Picture)
    requires x.height == y.height && x.width == y.width && x.depth == y.depth
    requires forall r, c, k :: 0 <= r < x.height && 0 <= c < x.width && 0 <= k < x.depth ==>
               x.px[r][c][k] == y.px[r][c][k]
    ensures x == y
  {
    forall r | 0 <= r < x.height
      ensures x.px[r] == y.px[r]
    {
      forall c | 0 <= c < x.width
        ensures x.px[r][c] == y.px[r][c]
      {
      }
    }
  }

  function Min(a: int, b: int): int
  {
    if a <= b then a else b
  }

  /** A background pixel: its last channel (alpha) is 0. */
  predicate Background(img: Picture, r: nat, c: nat)
    requires img.depth >= 1 && r < img.height && c < img.width
  {
    img.px[r][c][img.depth - 1] == 0
  }

  /** The first n channels of every background pixel replaced by the colour. */
  function Recolour(img: Picture, color: seq<int>, n: nat): (out: Picture)
    requires img.depth >= 1 && n <= img.depth - 1 && n <= |color|
    ensures out.height == img.height && out.width == img.width && out.depth == img.depth
    ensures forall r, c, k :: 0 <= r < img.height && 0 <= c < img.width && 0 <= k < img.depth ==>
              out.px[r][c][k] == if Background(img, r, c) && k < n then color[k] else img.px[r][c][k]
  {
    Image(img.height, img.width, img.depth,
      seq(img.height, r requires 0 <= r < img.height =>
        seq(img.width, c requires 0 <= c < img.width =>
          seq(img.depth, k requires 0 <= k < img.depth =>
            if Background(img, r, c) && k < n then color[k] else img.px[r][c][k]))))
  }

  /** Recolouring one more channel changes only that channel of the background pixels. */
  lemma RecolourStep(img: Picture, color: seq<int>, n: nat)
    requires img.depth >= 1 && n < img.depth - 1 && n < |color|
    ensures forall r, c, k :: 0 <= r < img.height && 0 <= c < img.width && 0 <= k < img.depth ==>
              Recolour(img, color, n + 1).px[r][c][k] ==
                if k == n && Background(img, r, c) then color[n] else Recolour(img, color, n).px[r][c][k]
  {
    var next, prev := Recolour(img, color, n + 1), Recolour(img, color, n);
    forall r, c, k | 0 <= r < img.height && 0 <= c < img.width && 0 <= k < img.depth
      ensures next.px[r][c][k] == if k == n && Background(img, r, c) then color[n] else prev.px[r][c][k]
    {
    }
  }

  /** `img[img[..., -1] == 0, channel] = value`: one channel of every
      background pixel set to the value. */
  method FillBackground(a: array3<int>, channel: nat, value: int)
    requires channel < a.Length2 - 1
    modifies a
    ensures forall r, c, k :: 0 <= r < a.Length0 && 0 <= c < a.Length1 && 0 <= k < a.Length2 ==>
              a[r, c, k] == if k == channel && old(a[r, c, a.Length2 - 1]) == 0 then value else old(a[r, c, k])
  {
    forall r, c | 0 <= r < a.Length0 && 0 <= c < a.Length1 && a[r, c, a.Length2 - 1] == 0 {
      a[r, c, channel] := value;
    }
  }

  /** change_img_on_background: for each colour channel in turn, every pixel
      whose alpha is 0 gets that channel of the new colour. Indexing a colour
      shorter than the channel count raises IndexError after the channels
      before it have been written; an image without channels has no alpha to
      test and raises at once. */
  method ChangeImgOnBackground(a: array3<int>, color: seq<int>) returns (ok: bool)
    modifies a
    ensures ok <==> a.Length2 >= 1 && |color| >= a.Length2 - 1
    ensures a.Length2 == 0 ==> ValueOf(a) == old(ValueOf(a))
    ensures a.Length2 >= 1 ==>
              ValueOf(a) == Recolour(old(ValueOf(a)), color, Min(|color|, a.Length2 - 1))
  {
    if a.Length2 == 0 {
      return false;
    }
    ghost var before := ValueOf(a);
    var alpha := a.Length2 - 1;
    var channel := 0;
    while channel < alpha
      invariant 0 <= channel <= alpha && channel <= |color|
      invariant forall r, c, k :: 0 <= r < a.Length0 && 0 <= c < a.Length1 && 0 <= k < a.Length2 ==>
                  a[r, c, k] == Recolour(before, color, channel).px[r][c][k]
    {
      if channel >= |color| {
        PictureExtensional(ValueOf(a), Recolour(before, color, channel));
        return false;
      }
      RecolourStep(before, color, channel);
      FillBackground(a, channel, color[channel]);
      channel := channel + 1;
    }
    PictureExtensional(ValueOf(a), Recolour(before, color, channel));
    return true;
  }

  /** The crop of process_image: the top-left quarter, `arr[0:h//4, 0:w//4, :]`. */
  function Crop(img: Picture): (box: Picture)
    ensures box.height == img.height / 4 && box.width == img.width / 4 && box.depth == img.depth
    ensures forall r, c :: 0 <= r < box.height && 0 <= c < box.width ==> box.px[r][c] == img.px[r][c]
  {
    Image(img.height / 4, img.width / 4, img.depth,
      seq(img.height / 4, r requires 0 <= r < img.height / 4 =>
        seq(img.width / 4, c requires 0 <= c < img.width / 4 => img.px[r][c])))
  }

  /** What process_image returns for a decoded image: the crop, with its
      background recoloured when a background colour is given. */
  function Processed(img: Picture, background: seq<int>): Result<Picture>
  {
    if |background| == 0 then Success(Crop(img))
    else if img.depth >= 1 && |background| >= img.depth - 1 then
      Success(Recolour(Crop(img), background, img.depth - 1))
    else Failure(IndexError)
  }

  /** The crop of process_image, copied into a fresh array. */
  method CropInto(img: Picture) returns (box: array3<int>)
    ensures fresh(box) && ValueOf(box) == Crop(img)
  {
    box := new int[img.height / 4, img.width / 4, img.depth];
    forall i, j, k | 0 <= i < box.Length0 && 0 <= j < box.Length1 && 0 <= k < box.Length2 {
      box[i, j, k] := img.px[i][j][k];
    }
    PictureExtensional(ValueOf(box), Crop(img));
  }

  /** process_image on an already decoded image: copy it into an array, crop
      it and standardise the background in place. */
  method ProcessImage(img: Picture, background: seq<int>) returns (r: Result<Picture>)
    ensures r == Processed(img, background)
  {
    var box := CropInto(img);
    if |background| > 0 {
      var ok := ChangeImgOnBackground(box, background);
      if !ok {
        return Failure(IndexError);
      }
    }
    return Success(ValueOf(box));
  }

  /** The crop keeps the top-left corner; recolouring leaves alpha, and every
      pixel that is not background, as it was, and gives each background
      pixel the colour on every other channel. */
  lemma ProcessedMeaning(img: Picture, background: seq<int>)
    ensures Processed(img, background).Success? <==>
              |background| == 0 || (img.depth >= 1 && |background| >= img.depth - 1)
    ensures Processed(img, background).Success? ==>
              var box := Processed(img, background).value;
              box.height == img.height / 4 && box.width == img.width / 4 && box.depth == img.depth &&
              forall r, c, k :: 0 <= r < box.height && 0 <= c < box.width && 0 <= k < box.depth ==>
                box.px[r][c][k] ==
                  if |background| > 0 && img.px[r][c][img.depth - 1] == 0 && k < img.depth - 1
                  then background[k] else img.px[r][c][k]
  {
  }

  /** Standardising the background twice is the same as doing it once: alpha
      is never written, so the second pass finds the same pixels. */
  lemma RecolourIdempotent(img: Picture, color: seq<int>, n: nat)
    requires img.depth >= 1 && n <= img.depth - 1 && n <= |color|
    ensures Recolour(Recolour(img, color, n), color, n) == Recolour(img, color, n)
  {
    var once := Recolour(img, color, n);
    PictureExtensional(Recolour(once, color, n), once);
  }

  /** `image[..., -1] == 255`: the opaque pixels, where the character is drawn. */
  function AlphaMask(img: Picture): (m: Mask)
    requires img.depth >= 1
    ensures WellFormed(m) && m.height == img.height && m.width == img.width
    ensures forall r, c :: 0 <= r < img.height && 0 <= c < img.width ==>
              m.cells[r][c] == (img.px[r][c][img.depth - 1] == 255)
  {
    Mask(img.height, img.width,
      seq(img.height, r requires 0 <= r < img.height =>
        seq(img.width, c requires 0 <= c < img.width => img.px[r][c][img.depth - 1] == 255)))
  }

  /** The pixel count of the alpha mask is zero exactly when no pixel is fully
      opaque, and never exceeds the pixel count of the image. */
  lemma AlphaCount(img: Picture)
    requires img.depth >= 1
    ensures CountTrue(AlphaMask(img)) <= img.height * img.width
    ensures CountTrue(AlphaMask(img)) == 0 <==>
              forall r, c :: 0 <= r < img.height && 0 <= c < img.width ==> img.px[r][c][img.depth - 1] != 255
  {
    var m := AlphaMask(img);
    CountTrueBounds(m);
    if !NonEmpty(m) {
      forall r, c | 0 <= r < img.height && 0 <= c < img.width
        ensures img.px[r][c][img.depth - 1] != 255
      {
        assert !m.cells[r][c];
      }
    }
  }
}
