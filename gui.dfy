/**
 * The state the viewer's main loop keeps from frame to frame, and the steps
 * of one frame that touch it: re-evaluation of the script into the shape
 * cache, replacement of the evaluation context when the render size
 * changes, the render mode the dimension allows, and the drawing of every
 * cached shape into the shared texture.
 *
 * The interpreter's output, the camera's model matrix, the user's settings
 * and the GPU are inputs of these steps.
 */
module Gui {
  import opened Opt
  import opened OrderedKeys
  import opened Scene
  import opened Dispatch
  import opened Compositing

  /** `mpr::Context`: the evaluation buffers for one render resolution. */
  class Context {
    const imageSizePx: int

    constructor (size: int)
      ensures imageSizePx == size
    {
      imageSizePx := size;
    }
  }

  /**
   * The GPU side of drawing one shape: given the context's size, the shape's
   * tape, the transform and the mode, the fields `copy_to_texture` reads
   * once the render and the mode's post-passes are done.
   */
  type Gpu = (int, Tape, Transform, Mode) -> Layer

  /** The tapes of the cached shapes, in the order a frame visits them. */
  function TapesInOrder(shapes: map<int, Shape>): (tapes: seq<Tape>)
    ensures |tapes| == |shapes|
  {
    var keys := SortedKeys(shapes.Keys);
    seq(|keys|, i requires 0 <= i < |keys| => shapes[keys[i]].tape)
  }

  /**
   * Drawing right after a reconciliation of a cache built from the
   * interpreter's trees renders the script's trees, each once, in ascending
   * order of their identities.
   */
  lemma FrameRendersScript(shapes: map<int, Shape>, current: map<int, Tree>, x: Transform, mode: Mode)
    requires forall k :: k in shapes && k in current ==> shapes[k] == Build(current[k])
    ensures var keys := SortedKeys(current.Keys);
            var rendered := Rendered(FrameCalls(TapesInOrder(Reconciled(shapes, current)), x, mode));
            |rendered| == |keys| && forall i :: 0 <= i < |keys| ==> rendered[i].source == current[keys[i]]
  {
    var r := Reconciled(shapes, current);
    FrameAppendFlags(TapesInOrder(r), x, mode);
    ReconcileBuildsScript(shapes, current);
  }

  /** The tapes in visiting order are exactly the tapes of the cached shapes. */
  lemma TapesInOrderCovers(shapes: map<int, Shape>)
    ensures forall k :: k in shapes ==> shapes[k].tape in TapesInOrder(shapes)
    ensures forall t :: t in TapesInOrder(shapes) ==> exists k :: k in shapes && shapes[k].tape == t
  {
    var keys := SortedKeys(shapes.Keys);
    var tapes := TapesInOrder(shapes);
    forall k | k in shapes
      ensures shapes[k].tape in tapes
    {
      var i :| 0 <= i < |keys| && keys[i] == k;
      assert tapes[i] == shapes[k].tape;
    }
  }

  /** The layers a frame composites, one per visited tape. */
  function LayersOf(tapes: seq<Tape>, size: int, x: Transform, mode: Mode, gpu: Gpu): (layers: seq<Layer>)
    ensures |layers| == |tapes|
  {
    seq(|tapes|, i requires 0 <= i < |tapes| => gpu(size, tapes[i], x, mode))
  }

  lemma LayersStep(tapes: seq<Tape>, i: nat, size: int, x: Transform, mode: Mode, gpu: Gpu)
    requires i < |tapes|
    ensures LayersOf(tapes[..i + 1], size, x, mode, gpu) == LayersOf(tapes[..i], size, x, mode, gpu) + [gpu(size, tapes[i], x, mode)]
  {
  }

  /** A loop over the keys of `s` that handled each key it visited has handled exactly `s`. */
  lemma AllVisited(keys: seq<int>, s: set<int>, done: set<int>)
    requires forall x :: x in keys <==> x in s
    requires forall j :: 0 <= j < |keys| ==> keys[j] in done
    requires done <= s
    ensures done == s
  {
    forall x | x in s
      ensures x in done
    {
      var n :| 0 <= n < |keys| && keys[n] == x;
    }
  }

  /**
   * The eviction pass has handled the keys in `done`: of those, the ones the
   * interpreter no longer reports are gone; every entry left is unchanged.
   */
  ghost predicate EvictedSoFar(m: map<int, Shape>, before: map<int, Shape>, live: set<int>, done: set<int>) {
    && (forall k :: k in m <==> k in before && (k in live || k !in done))
    && (forall k :: k in m ==> m[k] == before[k])
  }

  lemma EvictStep(m: map<int, Shape>, before: map<int, Shape>, live: set<int>, done: set<int>, k: int)
    requires EvictedSoFar(m, before, live, done)
    ensures EvictedSoFar(if k in live then m else m - {k}, before, live, done + {k})
  {
  }

  lemma EvictDone(m: map<int, Shape>, before: map<int, Shape>, live: set<int>)
    requires EvictedSoFar(m, before, live, before.Keys)
    ensures m == Evicted(before, live)
  {
    var r := Evicted(before, live);
    forall k
      ensures k in m <==> k in r
      ensures k in m ==> m[k] == r[k]
    {
    }
  }

  /**
   * The insertion pass has handled the keys in `done`, and `added` holds
   * the keys it built a shape for: the cache holds the shapes it had before
   * and a freshly built shape for every handled key that was missing.
   */
  ghost predicate InsertedSoFar(m: map<int, Shape>, before: map<int, Shape>, current: map<int, Tree>,
                                done: set<int>, added: set<int>) {
    && (forall k :: k in m <==> k in before || k in done)
    && (forall k :: k in added <==> k in done && k !in before)
    && (forall k :: k in before ==> m[k] == before[k])
    && (forall k :: k in added ==> k in current && m[k] == Build(current[k]))
  }

  /** A key the cache does not hold yet gets a freshly built shape. */
  lemma InsertMissing(m: map<int, Shape>, before: map<int, Shape>, current: map<int, Tree>,
                      done: set<int>, added: set<int>, k: int)
    requires InsertedSoFar(m, before, current, done, added) && k in current && k !in m
    ensures k !in added
    ensures InsertedSoFar(m[k := Build(current[k])], before, current, done + {k}, added + {k})
  {
  }

  /** A key the cache already holds is left alone. */
  lemma InsertPresent(m: map<int, Shape>, before: map<int, Shape>, current: map<int, Tree>,
                      done: set<int>, added: set<int>, k: int)
    requires InsertedSoFar(m, before, current, done, added) && k in m
    ensures InsertedSoFar(m, before, current, done + {k}, added)
  {
  }

  /** Once every key of the output is handled, the cache is the insertion's result. */
  lemma InsertDone(m: map<int, Shape>, before: map<int, Shape>, current: map<int, Tree>, added: set<int>)
    requires InsertedSoFar(m, before, current, current.Keys, added)
    ensures m == Inserted(before, current)
    ensures added == Compilations(before, current)
  {
    var r := Inserted(before, current);
    forall k
      ensures k in m <==> k in r
      ensures k in m ==> m[k] == r[k]
    {
    }
    var c := current.Keys - before.Keys;
    forall k
      ensures k in added <==> k in c
    {
    }
    assert added == c;
  }

  class Viewer {
    /** The shape cache, keyed by tree identity. */
    var shapes: map<int, Shape>
    /** How many tapes have been compiled so far. */
    ghost var compiles: nat
    /** Whether the script changed since it was last evaluated. */
    var needsEval: bool
    var renderSize: int
    var dimension: int
    var mode: Mode
    var ctx: Context
    /** The shared display texture every shape is composited into. */
    const tex: array<Rgba>

    ghost predicate Valid()
      reads this
    {
      tex.Length == TexturePixels
    }

    /** The state before the first frame. */
    constructor ()
      ensures Valid() && fresh(tex) && fresh(ctx)
      ensures shapes == map[] && compiles == 0 && needsEval
      ensures renderSize == 256 && dimension == 3 && mode == Normals
      ensures ctx.imageSizePx == renderSize
    {
      shapes := map[];
      compiles := 0;
      needsEval := true;
      renderSize, dimension, mode := 256, 3, Normals;
      ctx := new Context(256);
      tex := new Rgba[TexturePixels];
    }

    /**
     * The eviction pass: walks the cache in key order and erases every entry
     * whose key the interpreter no longer reports.
     */
    method Evict(current: map<int, Tree>)
      modifies this`shapes
      ensures shapes == Evicted(old(shapes), current.Keys)
    {
      var keys := SortedKeys(shapes.Keys);
      ghost var before := shapes;
      ghost var done: set<int> := {};
      for i := 0 to |keys|
        invariant EvictedSoFar(shapes, before, current.Keys, done)
        invariant done <= before.Keys
        invariant forall j :: 0 <= j < i ==> keys[j] in done
      {
        ghost var m := shapes;
        EvictKey(current, keys[i]);
        EvictStep(m, before, current.Keys, done, keys[i]);
        done := done + {keys[i]};
      }
      AllVisited(keys, before.Keys, done);
      EvictDone(shapes, before, current.Keys);
    }

    /** The body of the eviction loop: erases `k` unless the interpreter reports it. */
    method EvictKey(current: map<int, Tree>, k: int)
      modifies this`shapes
      ensures shapes == if k in current then old(shapes) else old(shapes) - {k}
    {
      if k !in current {
        shapes := shapes - {k};
      }
    }

    /**
     * The insertion pass: walks the interpreter's shapes in key order and
     * compiles a tape only for a key the cache does not hold yet.
     */
    method Insert(current: map<int, Tree>)
      modifies this`shapes, this`compiles
      ensures shapes == Inserted(old(shapes), current)
      ensures compiles == old(compiles) + |Compilations(old(shapes), current)|
    {
      var keys := SortedKeys(current.Keys);
      ghost var before := shapes;
      ghost var done: set<int> := {};
      ghost var added: set<int> := {};
      for i := 0 to |keys|
        invariant InsertedSoFar(shapes, before, current, done, added)
        invariant done <= current.Keys
        invariant forall j :: 0 <= j < i ==> keys[j] in done
        invariant compiles == old(compiles) + |added|
      {
        ghost var m := shapes;
        InsertKey(current, keys[i]);
        if keys[i] in m {
          InsertPresent(m, before, current, done, added, keys[i]);
        } else {
          InsertMissing(m, before, current, done, added, keys[i]);
          added := added + {keys[i]};
        }
        done := done + {keys[i]};
      }
      AllVisited(keys, current.Keys, done);
      InsertDone(shapes, before, current, added);
    }

    /** The body of the insertion loop: builds a shape for `k` unless the cache holds one. */
    method InsertKey(current: map<int, Tree>, k: int)
      requires k in current
      modifies this`shapes, this`compiles
      ensures k in old(shapes) ==> shapes == old(shapes) && compiles == old(compiles)
      ensures k !in old(shapes) ==> shapes == old(shapes)[k := Build(current[k])] && compiles == old(compiles) + 1
    {
      if k !in shapes {
        shapes := shapes[k := Build(current[k])];
        compiles := compiles + 1;
      }
    }

    /**
     * Reconciliation: eviction, then insertion. The cache ends with exactly
     * the interpreter's keys, and exactly the new keys cost a compilation.
     */
    method Reconcile(current: map<int, Tree>)
      modifies this`shapes, this`compiles
      ensures shapes == Reconciled(old(shapes), current)
      ensures compiles == old(compiles) + |Compilations(old(shapes), current)|
    {
      EvictionKeepsCompilations(shapes, current);
      Evict(current);
      Insert(current);
    }

    /** Re-evaluation happens only on frames where the script changed. */
    method Evaluate(current: map<int, Tree>)
      modifies this`shapes, this`compiles
      ensures needsEval ==> shapes == Reconciled(old(shapes), current)
      ensures needsEval ==> compiles == old(compiles) + |Compilations(old(shapes), current)|
      ensures !needsEval ==> shapes == old(shapes) && compiles == old(compiles)
    {
      if needsEval {
        Reconcile(current);
      }
    }

    /**
     * The context is replaced by a new one exactly when the requested render
     * size differs from the size it was built for, and kept otherwise.
     */
    method ResizeContext()
      modifies this`ctx
      ensures ctx.imageSizePx == renderSize
      ensures old(ctx.imageSizePx) == renderSize ==> ctx == old(ctx)
      ensures old(ctx.imageSizePx) != renderSize ==> fresh(ctx)
    {
      if renderSize != ctx.imageSizePx {
        ctx := new Context(renderSize);
      }
    }

    /**
     * The render mode after the settings window: the mode clicked (or the
     * one held) in 3-D, the forced 2-D mode otherwise. The radio buttons
     * never offer the 2-D mode; `clicked` is allowed to carry it all the same.
     */
    method SelectMode(clicked: Option<Mode>)
      modifies this`mode
      ensures mode == ForcedMode(dimension, if clicked.Some? then clicked.value else old(mode))
    {
      if dimension == 3 {
        if clicked.Some? {
          mode := clicked.value;
        }
      } else {
        mode := TwoD;
      }
    }

    /**
     * Draws the cached shapes in key order: each is rendered with the
     * frame's transform, post-processed as its mode requires and copied into
     * the texture, the first without append and the rest with it. Every
     * pixel ends with the painter's value over the shapes' layers.
     */
    method DrawShapes(model: Matrix, gpu: Gpu, background: Rgba) returns (calls: seq<Call>)
      requires Valid() && IsSquare(model, 4)
      modifies tex
      ensures calls == FrameCalls(TapesInOrder(shapes), TransformFor(dimension, model), mode)
      ensures Painted(tex[..], old(tex[..]),
                      LayersOf(TapesInOrder(shapes), ctx.imageSizePx, TransformFor(dimension, model), mode, gpu),
                      background)
    {
      var keys := SortedKeys(shapes.Keys);
      ghost var tapes := TapesInOrder(shapes);
      ghost var before := tex[..];
      var x := TransformFor(dimension, model);
      var append := false;
      calls := [];
      for i := 0 to |keys|
        invariant append == (i > 0)
        invariant calls == FrameCalls(tapes[..i], x, mode)
        invariant Painted(tex[..], before, LayersOf(tapes[..i], ctx.imageSizePx, x, mode, gpu), background)
      {
        var tape := shapes[keys[i]].tape;
        assert tapes[i] == tape;
        FrameCallsStep(tapes, i, x, mode);
        calls := calls + ShapeCalls(tape, x, mode, append);
        var layer := gpu(ctx.imageSizePx, tape, x, mode);
        ghost var drawn := LayersOf(tapes[..i], ctx.imageSizePx, x, mode, gpu);
        ghost var mid := tex[..];
        LayersStep(tapes, i, ctx.imageSizePx, x, mode, gpu);
        CopyToTexture(tex, layer, append, background);
        PaintedStep(tex[..], mid, before, drawn, layer, background);
        append := true;
      }
      assert tapes[..|keys|] == tapes;
    }

    /**
     * The state-keeping part of one iteration of the main loop, in the order
     * it runs: re-evaluation if the script changed, the editor's verdict on
     * whether it changed again, the render size and the context, then the
     * dimension and the mode.
     */
    method Prepare(current: map<int, Tree>, edited: bool, chosenSize: int, chosenDimension: int,
                   clicked: Option<Mode>)
      modifies this`shapes, this`compiles, this`needsEval, this`renderSize, this`ctx, this`dimension, this`mode
      ensures shapes == if old(needsEval) then Reconciled(old(shapes), current) else old(shapes)
      ensures compiles == if old(needsEval) then old(compiles) + |Compilations(old(shapes), current)| else old(compiles)
      ensures needsEval == edited
      ensures renderSize == chosenSize && ctx.imageSizePx == chosenSize
      ensures old(ctx.imageSizePx) == chosenSize ==> ctx == old(ctx)
      ensures old(ctx.imageSizePx) != chosenSize ==> fresh(ctx)
      ensures dimension == chosenDimension
      ensures mode == ForcedMode(chosenDimension, if clicked.Some? then clicked.value else old(mode))
    {
      Evaluate(current);
      needsEval := edited;
      renderSize := chosenSize;
      ResizeContext();
      dimension := chosenDimension;
      SelectMode(clicked);
    }

    /**
     * One iteration of the main loop: the state is brought up to date, then
     * the shapes are drawn with the frame's mode and transform.
     */
    method Frame(current: map<int, Tree>, edited: bool, chosenSize: int, chosenDimension: int,
                 clicked: Option<Mode>, model: Matrix, gpu: Gpu, background: Rgba)
      returns (calls: seq<Call>)
      requires Valid() && IsSquare(model, 4)
      modifies this, tex
      ensures Valid()
      ensures shapes == if old(needsEval) then Reconciled(old(shapes), current) else old(shapes)
      ensures compiles == if old(needsEval) then old(compiles) + |Compilations(old(shapes), current)| else old(compiles)
      ensures needsEval == edited
      ensures renderSize == chosenSize && ctx.imageSizePx == chosenSize
      ensures old(ctx.imageSizePx) == chosenSize ==> ctx == old(ctx)
      ensures old(ctx.imageSizePx) != chosenSize ==> fresh(ctx)
      ensures dimension == chosenDimension
      ensures mode == ForcedMode(chosenDimension, if clicked.Some? then clicked.value else old(mode))
      ensures calls == FrameCalls(TapesInOrder(shapes), TransformFor(dimension, model), mode)
      ensures Painted(tex[..], old(tex[..]),
                      LayersOf(TapesInOrder(shapes), chosenSize, TransformFor(dimension, model), mode, gpu),
                      background)
    {
      Prepare(current, edited, chosenSize, chosenDimension, clicked);
      calls := DrawShapes(model, gpu, background);
    }
  }
}
