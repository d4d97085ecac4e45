/**
 * Per-frame render dispatch of the viewer: the render mode forced by the
 * dimension, the transform handed to the evaluation context, the post-passes
 * each mode runs, and the sequence of GPU calls one frame issues for its
 * shapes (render, post-passes, copy into the shared texture).
 */
module Dispatch {
  import opened Scene

  /** `RENDER_MODE_DEPTH`, `_NORMALS`, `_SSAO`, `_SHADED` and `_2D`. */
  datatype Mode = Depth | Normals | SSAO | Shaded | TwoD

  /**
   * The settings window: in 3-D the mode the user picked is kept; any other
   * dimension forces the 2-D mode.
   */
  function ForcedMode(dimension: int, mode: Mode): (r: Mode)
    ensures r == TwoD <==> dimension != 3 || mode == TwoD
    ensures r != TwoD ==> r == mode
  {
    if dimension == 3 then mode else TwoD
  }

  /** A matrix as rows of entries. */
  type Matrix = seq<seq<real>>

  ghost predicate IsSquare(m: Matrix, n: nat) {
    |m| == n && forall i :: 0 <= i < n ==> |m[i]| == n
  }

  /** The row (or column) of the 4x4 model matrix that row (or column) `i` of the 2-D matrix takes. */
  function Keep(i: nat): nat {
    if i < 2 then i else 3
  }

  /**
   * The 3x3 matrix handed to `render2D`: the upper-left 2x2 block, column 3
   * of rows 0..1 as translation, row 3 of columns 0..1 as the bottom row,
   * and entry (3,3) as the corner.
   */
  function Project2D(m: Matrix): (r: Matrix)
    requires IsSquare(m, 4)
    ensures IsSquare(r, 3)
    ensures forall i, j :: 0 <= i < 3 && 0 <= j < 3 ==> r[i][j] == m[Keep(i)][Keep(j)]
  {
    [[m[0][0], m[0][1], m[0][3]],
     [m[1][0], m[1][1], m[1][3]],
     [m[3][0], m[3][1], m[3][3]]]
  }

  /** No entry of row 2 or column 2 (the Z axis) reaches the 2-D matrix. */
  lemma Project2DIgnoresZ(m: Matrix, n: Matrix)
    requires IsSquare(m, 4) && IsSquare(n, 4)
    requires forall i, j :: 0 <= i < 4 && 0 <= j < 4 && i != 2 && j != 2 ==> m[i][j] == n[i][j]
    ensures Project2D(m) == Project2D(n)
  {
  }

  /** The transform an evaluation receives: 3x3 for `render2D`, 4x4 for `render3D`. */
  datatype Transform = Planar(m3: Matrix) | Spatial(m4: Matrix)

  function TransformFor(dimension: int, model: Matrix): (x: Transform)
    requires IsSquare(model, 4)
    ensures dimension == 2 <==> x.Planar?
    ensures x.Planar? ==> IsSquare(x.m3, 3) && x.m3 == Project2D(model)
    ensures x.Spatial? ==> x.m4 == model
  {
    if dimension == 2 then Planar(Project2D(model)) else Spatial(model)
  }

  /** A GPU call issued while drawing a frame. */
  datatype Call =
    | Render(tape: Tape, transform: Transform)  // ctx.render2D or ctx.render3D
    | DrawSSAO                                  // effects.drawSSAO(ctx)
    | DrawShaded                                // effects.drawShaded(ctx)
    | Copy(append: bool, mode: Mode)            // copy_to_texture(..., append, mode)

  /** The post-passes a mode runs after the evaluation. */
  function PostPasses(mode: Mode): (r: seq<Call>)
    ensures |r| <= 1
    ensures DrawSSAO in r <==> mode == SSAO
    ensures DrawShaded in r <==> mode == Shaded
    ensures forall c :: c in r ==> c.DrawSSAO? || c.DrawShaded?
  {
    match mode
    case SSAO => [DrawSSAO]
    case Shaded => [DrawShaded]
    case _ => []
  }

  /** The calls issued for one shape. */
  function ShapeCalls(tape: Tape, x: Transform, mode: Mode, append: bool): (r: seq<Call>)
    ensures |r| == 2 + |PostPasses(mode)|
    ensures r[0] == Render(tape, x) && r[|r| - 1] == Copy(append, mode)
  {
    [Render(tape, x)] + PostPasses(mode) + [Copy(append, mode)]
  }

  /**
   * The calls issued for the shapes of a frame, in visiting order; every
   * shape but the first is copied in append mode.
   */
  function FrameCalls(tapes: seq<Tape>, x: Transform, mode: Mode): (r: seq<Call>)
    ensures tapes == [] <==> r == []
    ensures tapes != [] ==> r[|r| - 1] == Copy(|tapes| > 1, mode)
    decreases |tapes|
  {
    if tapes == [] then []
    else FrameCalls(tapes[..|tapes| - 1], x, mode)
         + ShapeCalls(tapes[|tapes| - 1], x, mode, |tapes| > 1)
  }

  /** Visiting one more shape appends that shape's calls to the frame's. */
  lemma FrameCallsStep(tapes: seq<Tape>, i: nat, x: Transform, mode: Mode)
    requires i < |tapes|
    ensures FrameCalls(tapes[..i + 1], x, mode) == FrameCalls(tapes[..i], x, mode) + ShapeCalls(tapes[i], x, mode, i > 0)
  {
    assert tapes[..i + 1][..i] == tapes[..i];
  }

  /** Every shape costs the same number of calls: a render, the mode's post-pass, a copy. */
  lemma {:induction false} FrameCallsLength(tapes: seq<Tape>, x: Transform, mode: Mode)
    ensures |FrameCalls(tapes, x, mode)| == |tapes| * (2 + |PostPasses(mode)|)
    decreases |tapes|
  {
    if tapes != [] {
      var n := |tapes|;
      FrameCallsLength(tapes[..n - 1], x, mode);
      if mode == SSAO || mode == Shaded {
        assert (n - 1) * 3 + 3 == n * 3;
      } else {
        assert (n - 1) * 2 + 2 == n * 2;
      }
    }
  }

  /** The append flags of the copies in a call sequence, in order. */
  function CopyFlags(calls: seq<Call>): seq<bool> {
    if calls == [] then []
    else (if calls[0].Copy? then [calls[0].append] else []) + CopyFlags(calls[1..])
  }

  /** The tapes rendered in a call sequence, in order. */
  function Rendered(calls: seq<Call>): seq<Tape> {
    if calls == [] then []
    else (if calls[0].Render? then [calls[0].tape] else []) + Rendered(calls[1..])
  }

  lemma {:induction false} CopyFlagsConcat(a: seq<Call>, b: seq<Call>)
    ensures CopyFlags(a + b) == CopyFlags(a) + CopyFlags(b)
    ensures Rendered(a + b) == Rendered(a) + Rendered(b)
    decreases |a|
  {
    if a != [] {
      CopyFlagsConcat(a[1..], b);
      assert (a + b)[1..] == a[1..] + b;
    } else {
      assert a + b == b;
    }
  }

  /** One shape is rendered once and copied once, with the flag it was given. */
  lemma ShapeCallsShape(tape: Tape, x: Transform, mode: Mode, append: bool)
    ensures CopyFlags(ShapeCalls(tape, x, mode, append)) == [append]
    ensures Rendered(ShapeCalls(tape, x, mode, append)) == [tape]
  {
    var post := PostPasses(mode);
    CopyFlagsConcat([Render(tape, x)] + post, [Copy(append, mode)]);
    CopyFlagsConcat([Render(tape, x)], post);
    assert CopyFlags(post) == [] && Rendered(post) == [];
  }

  /**
   * Over one frame the shapes are rendered once each, in visiting order, and
   * the append flag passed to the copies is false for the first shape and
   * true for every later one.
   */
  lemma {:induction false} FrameAppendFlags(tapes: seq<Tape>, x: Transform, mode: Mode)
    ensures CopyFlags(FrameCalls(tapes, x, mode)) == seq(|tapes|, k => k > 0)
    ensures Rendered(FrameCalls(tapes, x, mode)) == tapes
    decreases |tapes|
  {
    if tapes != [] {
      var n := |tapes|;
      var front := tapes[..n - 1];
      FrameAppendFlags(front, x, mode);
      CopyFlagsConcat(FrameCalls(front, x, mode), ShapeCalls(tapes[n - 1], x, mode, n > 1));
      ShapeCallsShape(tapes[n - 1], x, mode, n > 1);
      assert seq(n - 1, k => k > 0) + [n > 1] == seq(n, k => k > 0);
      assert front + [tapes[n - 1]] == tapes;
    }
  }

  /**
   * The post-passes of a frame follow its mode: `drawSSAO` runs only in SSAO
   * mode (and then for a non-empty frame), `drawShaded` only in SHADED mode;
   * every render call carries the frame's transform.
   */
  lemma {:induction false} FrameEffects(tapes: seq<Tape>, x: Transform, mode: Mode)
    ensures DrawSSAO in FrameCalls(tapes, x, mode) <==> mode == SSAO && tapes != []
    ensures DrawShaded in FrameCalls(tapes, x, mode) <==> mode == Shaded && tapes != []
    ensures forall c :: c in FrameCalls(tapes, x, mode) && c.Render? ==> c.transform == x
    decreases |tapes|
  {
    if tapes != [] {
      FrameEffects(tapes[..|tapes| - 1], x, mode);
    }
  }

  /** In any dimension but 3 the frame runs no post-pass at all. */
  lemma FlatFrameHasNoEffects(dimension: int, selected: Mode, tapes: seq<Tape>, x: Transform)
    requires dimension != 3
    ensures forall c :: c in FrameCalls(tapes, x, ForcedMode(dimension, selected)) ==> !c.DrawSSAO? && !c.DrawShaded?
  {
  }

  /**
   * Forcing is idempotent, and the forced 2-D mode outlives a switch back to
   * 3-D: it is kept until the user picks another mode.
   */
  lemma ForcedModePersists(dimension: int, mode: Mode)
    ensures ForcedMode(dimension, ForcedMode(dimension, mode)) == ForcedMode(dimension, mode)
    ensures dimension != 3 ==> ForcedMode(3, ForcedMode(dimension, mode)) == TwoD
  {
  }
}
