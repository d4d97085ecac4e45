/**
 * Compositing of the shapes of one frame into the shared display texture
 * (`TEXTURE_SIZE` x `TEXTURE_SIZE` RGBA pixels). The first copy of a frame
 * paints every pixel, filled or empty; later copies only append the pixels
 * their shape fills. Later shapes therefore win wherever shapes overlap,
 * whatever their depth.
 */
module Compositing {
  import opened Opt

  const TextureSize: nat := 2048
  const TexturePixels: nat := TextureSize * TextureSize

  /** One RGBA texel. */
  type Rgba = bv32

  /**
   * What `copy_to_texture` reads from the evaluation context after a render
   * and its post-passes, per texture pixel: whether the shape fills it, and
   * the colour the active mode gives it there.
   */
  datatype Fields = Fields(filled: seq<bool>, color: seq<Rgba>)

  type Layer = f: Fields | |f.filled| == TexturePixels && |f.color| == TexturePixels
    witness Fields(seq(TexturePixels, _ => false), seq(TexturePixels, _ => 0))

  /**
   * `after` is `before` once `layer` was copied in: a filled pixel takes the
   * layer's colour; an empty pixel is painted with the background unless
   * the copy appends, in which case it keeps what earlier shapes wrote.
   */
  ghost predicate Copied(after: seq<Rgba>, before: seq<Rgba>, layer: Layer, append: bool, background: Rgba) {
    && |after| == TexturePixels
    && |before| == TexturePixels
    && forall p :: 0 <= p < TexturePixels ==>
         after[p] == if layer.filled[p] then layer.color[p]
                     else if append then before[p] else background
  }

  /** `copy_to_texture`: composites one shape's layer into the texture. */
  method CopyToTexture(tex: array<Rgba>, layer: Layer, append: bool, background: Rgba)
    requires tex.Length == TexturePixels
    modifies tex
    ensures Copied(tex[..], old(tex[..]), layer, append, background)
  {
    for p := 0 to TexturePixels
      invariant forall q :: 0 <= q < p ==>
        tex[q] == if layer.filled[q] then layer.color[q]
                  else if append then old(tex[q]) else background
      invariant forall q :: p <= q < TexturePixels ==> tex[q] == old(tex[q])
    {
      if layer.filled[p] {
        tex[p] := layer.color[p];
      } else if !append {
        tex[p] := background;
      }
    }
  }

  /** The position of the last layer, in drawing order, that fills pixel `p`. */
  function LastFiller(layers: seq<Layer>, p: nat): (r: Option<nat>)
    requires p < TexturePixels
    ensures r.Some? ==> r.value < |layers| && layers[r.value].filled[p]
    ensures r.Some? ==> forall k :: r.value < k < |layers| ==> !layers[k].filled[p]
    ensures r.None? ==> forall k :: 0 <= k < |layers| ==> !layers[k].filled[p]
    decreases |layers|
  {
    if layers == [] then None
    else if layers[|layers| - 1].filled[p] then Some(|layers| - 1)
    else LastFiller(layers[..|layers| - 1], p)
  }

  /**
   * The painter's value of pixel `p` after drawing `layers` over a texture
   * whose pixel held `prior`: the colour of the last layer that fills it;
   * failing that, the background once anything was drawn; failing that,
   * `prior`.
   */
  function PainterValue(prior: Rgba, layers: seq<Layer>, background: Rgba, p: nat): (r: Rgba)
    requires p < TexturePixels
    ensures layers == [] ==> r == prior
    ensures layers != [] ==>
      (r == background || exists k :: 0 <= k < |layers| && layers[k].filled[p] && layers[k].color[p] == r)
  {
    match LastFiller(layers, p)
    case Some(k) => layers[k].color[p]
    case None => if layers == [] then prior else background
  }

  /**
   * Drawing one more layer: a pixel it fills takes its colour; any other
   * pixel becomes the background if this is the first layer of the frame and
   * otherwise keeps its painter's value.
   */
  lemma PainterStep(prior: Rgba, layers: seq<Layer>, layer: Layer, background: Rgba, p: nat)
    requires p < TexturePixels
    ensures PainterValue(prior, layers + [layer], background, p) ==
      if layer.filled[p] then layer.color[p]
      else if layers == [] then background
      else PainterValue(prior, layers, background, p)
  {
  }

  /**
   * Once anything is drawn, a pixel's painter's value is the colour of the
   * last layer that fills it, or the background if no layer does.
   */
  lemma PainterValueIsLastFiller(prior: Rgba, layers: seq<Layer>, background: Rgba, p: nat, k: nat)
    requires p < TexturePixels && layers != []
    ensures (forall j :: 0 <= j < |layers| ==> !layers[j].filled[p]) ==>
      PainterValue(prior, layers, background, p) == background
    ensures k < |layers| && layers[k].filled[p] && (forall j :: k < j < |layers| ==> !layers[j].filled[p]) ==>
      PainterValue(prior, layers, background, p) == layers[k].color[p]
  {
  }

  /** Every pixel of `after` holds its painter's value over `before`. */
  ghost predicate Painted(after: seq<Rgba>, before: seq<Rgba>, layers: seq<Layer>, background: Rgba) {
    && |after| == TexturePixels
    && |before| == TexturePixels
    && forall p :: 0 <= p < TexturePixels ==> after[p] == PainterValue(before[p], layers, background, p)
  }

  /**
   * The painter's invariant is kept by a copy that appends exactly when an
   * earlier layer of the frame was drawn.
   */
  lemma PaintedStep(after: seq<Rgba>, mid: seq<Rgba>, before: seq<Rgba>, layers: seq<Layer>, layer: Layer, background: Rgba)
    requires Painted(mid, before, layers, background)
    requires Copied(after, mid, layer, layers != [], background)
    ensures Painted(after, before, layers + [layer], background)
  {
  }

  /**
   * Overlap is decided by drawing order alone: if a later layer fills the
   * pixel, nothing drawn before it shows there.
   */
  lemma {:induction false} LaterLayerWins(prior: Rgba, before: seq<Layer>, layer: Layer, after: seq<Layer>, background: Rgba, p: nat)
    requires p < TexturePixels && layer.filled[p]
    requires forall k :: 0 <= k < |after| ==> !after[k].filled[p]
    ensures PainterValue(prior, before + [layer] + after, background, p) == layer.color[p]
  {
    var all := before + [layer] + after;
    assert all[|before|] == layer;
    forall k | |before| < k < |all|
      ensures !all[k].filled[p]
    {
      assert all[k] == after[k - |before| - 1];
    }
  }
}
