# Scene bookkeeping of the mpr viewer, in Dafny

This project models the per-frame bookkeeping of the interactive viewer of
`mpr`, a GPU renderer for implicit surfaces (`gui/main.cpp`). Each iteration
of the viewer's main loop does the following:

- **Reconciliation.** When the script has changed, the viewer reconciles its
  shape cache (`std::map<Tree::Id, Shape>`) with the trees the interpreter
  reports. It erases the entries whose identity is gone, then compiles a tape
  only for each identity it does not hold yet.
- **Context resize.** It replaces the evaluation context (`mpr::Context`)
  exactly when the chosen render size differs from the context's.
- **Mode selection.** It forces the 2-D render mode whenever the dimension is
  not 3.
- **Drawing.** It visits the cached shapes in key order. Each shape is
  rendered with the camera's matrix, projected to 3x3 in 2-D. The post-pass
  the mode asks for runs next. Then `copy_to_texture` composites the result
  into the shared display texture: the first shape overwrites every pixel,
  and every later one only appends the pixels it fills.

Modules:

- `OrderedKeys` (`ordered_keys.dfy`): the ascending order in which a
  `std::map` with integer keys is walked.
- `Scene` (`scene.dfy`): shapes, tapes, and the eviction, insertion and
  reconciliation of the cache as functions on maps, with their lemmas.
- `Dispatch` (`dispatch.dfy`): render modes, the forced mode, the 4x4 to 3x3
  projection, the transform handed to the context, and the trace of GPU
  calls one frame issues (`FrameCalls`), with its lemmas.
- `Compositing` (`compositing.dfy`): the texture as an `array<bv32>` and
  `copy_to_texture` as a loop over it. It also holds the painter's value of a
  pixel over a sequence of layers, and the invariant that drawing keeps.
- `Gui` (`gui.dfy`): the main loop's state as the class `Viewer`, with fields
  for the cache, the `needs_eval` flag, the render size, dimension and mode,
  the context and the texture. Each step of a frame is a method over it, and
  each loop is proved against the matching function of `Scene`, `Dispatch`
  or `Compositing`.
- `Opt` (`option.dfy`): an option type.

Tree identities are integers and trees are an opaque type. Building a tape is
the constructor `Tape(t)`, which records the tree it came from. The ghost
field `Viewer.compiles` counts tape builds. The GPU is the function parameter
`gpu`, which stands for `render2D`/`render3D` plus the mode's post-pass. It
gives the fields `copy_to_texture` reads: per texture pixel, whether the
shape fills it and the colour the mode gives it there.

Three points of the code's behaviour the model keeps:

- SHADED mode calls only `effects.drawShaded` (gui/main.cpp:378-383). Any
  ambient-occlusion pass it runs happens inside that call, which is not
  visible here.
- The 2-D mode is forced for every dimension other than 3, not only for 2
  (gui/main.cpp:324-335). It also stays selected after switching back to 3-D
  until the user clicks a mode (`Dispatch.ForcedModePersists`).
- Reconciliation runs whenever `needs_eval` is set, whatever the
  interpreter's `result_valid` says (gui/main.cpp:264-283). No path for a
  failed compilation or a device error exists in this code, so none is
  modelled.

## Model

| member | source | states |
|---|---|---|
| OrderedKeys.SortedKeys | gui/main.cpp:268-277 | The keys of a map in the order a `std::map` iterator visits them: strictly ascending, each key exactly once, nothing else. |
| OrderedKeys.Least | gui/main.cpp:268 | The first key an iterator visits: a member of the set that is below every other member. |
| Scene.Evicted | gui/main.cpp:268-275 | The eviction pass keeps exactly the keys the interpreter still reports (set intersection) and leaves every kept entry unchanged. |
| Scene.Inserted | gui/main.cpp:277-282 | The insertion pass yields the union of the key sets. Existing entries are never replaced, and each new key holds the shape built from the interpreter's tree for it. |
| Scene.Reconciled | gui/main.cpp:264-283 | After reconciliation the cache has exactly the interpreter's keys. A surviving key keeps its shape; a new key holds `Shape{Tape(t), t}` for its tree, and that tape's source is the tree. |
| Scene.EvictionKeepsCompilations | gui/main.cpp:268-282 | Eviction does not change which keys the insertion pass must compile. |
| Scene.Compilations | gui/main.cpp:277-281 | The keys the insertion pass compiles: interpreter keys the cache lacks, so their number is the interpreter's key count less the keys already cached. |
| Scene.ReconcileIsStable | gui/main.cpp:277-281 | A second reconciliation against output with the same key set compiles nothing and changes nothing, even if the trees differ. |
| Scene.ReconcileEvicts | gui/main.cpp:268-282 | A key that leaves the script is gone after the next reconciliation. If it comes back later, it holds a freshly built shape. |
| Scene.ReconcileBuildsScript | gui/main.cpp:277-282 | If every cached shape was built from the tree its identity names, reconciliation yields exactly the compiled interpreter output. |
| Dispatch.ForcedMode | gui/main.cpp:324-335 | The mode the settings window leaves: 2-D exactly when the dimension is not 3 or 2-D was already chosen, and otherwise the chosen mode. |
| Dispatch.Project2D | gui/main.cpp:357-364 | The 3x3 matrix takes rows/columns 0..1 of the upper-left block, rows 0..1 of column 3 as translation, columns 0..1 of row 3 as bottom row and (3,3) as corner. |
| Dispatch.Project2DIgnoresZ | gui/main.cpp:358-363 | No entry of row 2 or column 2 of the model matrix affects the 2-D matrix. |
| Dispatch.TransformFor | gui/main.cpp:357-367 | Dimension 2 exactly selects `render2D` with the projected 3x3 matrix; every other dimension passes the 4x4 matrix to `render3D` unchanged. |
| Dispatch.PostPasses | gui/main.cpp:372-384 | The post-passes of a mode: at most one; `drawSSAO` exactly in SSAO mode, `drawShaded` exactly in SHADED mode, nothing else. |
| Dispatch.ShapeCalls | gui/main.cpp:364-388 | The calls for one shape: a render with the frame's transform first, then the mode's post-pass, then a copy with the shape's append flag last. |
| Dispatch.FrameCalls | gui/main.cpp:342-409 | The calls of a frame: empty exactly when there are no shapes, and ending with the copy of the last shape, which appends iff it is not the first. |
| Dispatch.FrameCallsLength | gui/main.cpp:344-388 | Each shape issues the same number of calls: a render, the mode's post-pass and a copy. |
| Dispatch.FrameAppendFlags | gui/main.cpp:342-409 | Over one frame every shape is rendered once, in visiting order, and the copies get `append` false for the first shape and true for each later one. |
| Dispatch.FrameEffects | gui/main.cpp:372-384 | `drawSSAO` runs iff the mode is SSAO and the frame has shapes, and `drawShaded` iff the mode is SHADED and the frame has shapes. Every render call uses the frame's transform. |
| Dispatch.FlatFrameHasNoEffects | gui/main.cpp:324-384 | In any dimension but 3 no post-pass runs, whatever mode was picked. |
| Dispatch.ForcedModePersists | gui/main.cpp:324-335 | Forcing the mode is idempotent, and the 2-D mode survives a later switch to dimension 3. |
| Compositing.CopyToTexture | gui/main.cpp:387-388 | `copy_to_texture`: a filled pixel takes the shape's colour. An empty pixel becomes the background, or keeps its value when appending. |
| Compositing.LastFiller | gui/main.cpp:407-408 | Finds the last layer in drawing order that fills a pixel, or reports that none does. |
| Compositing.PainterValue | gui/main.cpp:407-408 | The painter's value of a pixel: the prior value when nothing was drawn; once anything was drawn, either the background or the colour of a layer that fills the pixel. |
| Compositing.PainterStep | gui/main.cpp:407-409 | Drawing one more layer: filled pixels take its colour, and empty pixels become the background on the first layer and otherwise keep their value. |
| Compositing.PainterValueIsLastFiller | gui/main.cpp:407-408 | After a non-empty frame, a pixel holds the colour of the last shape that fills it, or the background if none does. |
| Compositing.PaintedStep | gui/main.cpp:387-409 | A copy that appends exactly when an earlier shape of the frame was drawn keeps the painter's invariant. |
| Compositing.LaterLayerWins | gui/main.cpp:407-408 | Overlap is decided by drawing order: a pixel filled by a later shape shows that shape's colour, whatever was drawn before it. |
| Gui.TapesInOrder | gui/main.cpp:344 | The tapes the shape loop visits, one per cached shape, in key order. |
| Gui.TapesInOrderCovers | gui/main.cpp:344 | Every cached shape's tape is visited, and nothing but cached tapes is. |
| Gui.FrameRendersScript | gui/main.cpp:277-366 | Drawing right after reconciling a consistent cache renders the interpreter's trees, one each, in ascending identity order. |
| Gui.Context.constructor | gui/main.cpp:163 | A context records the size it was built for. |
| Gui.Viewer.constructor | gui/main.cpp:139-163 | The state before the first frame: empty cache, evaluation pending, size 256, dimension 3, NORMALS mode, a context of size 256. |
| Gui.Viewer.Evict | gui/main.cpp:268-275 | The iterator-erase loop leaves the cache equal to `Scene.Evicted` of the old cache and the interpreter's keys. |
| Gui.Viewer.EvictKey | gui/main.cpp:270-274 | One step of the erase loop: the key is erased exactly when the interpreter does not report it. |
| Gui.Viewer.Insert | gui/main.cpp:277-282 | The insertion loop leaves the cache equal to `Scene.Inserted`, with one compilation per key that was missing. |
| Gui.Viewer.InsertKey | gui/main.cpp:278-281 | One step of the insertion loop: a missing key gets a built shape and costs one compilation; a present key costs nothing. |
| Gui.Viewer.Reconcile | gui/main.cpp:267-282 | Both loops together leave the cache equal to `Scene.Reconciled` and compile exactly the new keys. |
| Gui.Viewer.Evaluate | gui/main.cpp:264-283 | When `needs_eval` is false the cache and the compilation count are untouched; otherwise the cache is reconciled. |
| Gui.Viewer.ResizeContext | gui/main.cpp:315-317 | Afterwards the context's size is the render size. The context is replaced by a fresh one exactly when the sizes differed, and kept otherwise. |
| Gui.Viewer.SelectMode | gui/main.cpp:324-335 | The mode becomes the clicked (or held) mode in 3-D, and 2-D in any other dimension. |
| Gui.Viewer.DrawShapes | gui/main.cpp:342-410 | The shape loop issues `Dispatch.FrameCalls` for the cached shapes in key order. Every texture pixel ends with its painter's value over their layers. |
| Gui.Viewer.Prepare | gui/main.cpp:264-335 | The state updates of one frame in order: reconciliation if pending, the editor's new `needs_eval`, size and context, dimension and mode. |
| Gui.Viewer.Frame | gui/main.cpp:264-410 | One main-loop iteration: the new state as `Prepare` leaves it (the context kept when the size is unchanged, fresh otherwise), then the frame's calls and the texture as `DrawShapes` leaves them. |

## Left out

- The camera's pan, zoom and rotation (gui/main.cpp:117-136, 183-228) are floating-point affine algebra. The camera's matrix enters as the `model` parameter of `Frame`.
- Window, ImGui widgets, the text editor, axis drawing, file load/save and archive export are UI and I/O. The editor's verdict, the radio buttons' values and a clicked mode enter as parameters of `Frame`.
- Timing with `std::chrono` is observational only.
- The interpreter is not part of this model. Its output for the frame is the `current` parameter, and `result_valid` does not affect the cache in this code.
- The inside of `render2D`/`render3D`, `Effects` and `copy_to_texture` are GPU code that is not shown. They are the `gpu` parameter, which gives a shape's filled mask and colours. `copy_to_texture` is modelled by the append contract stated at gui/main.cpp:407-408. The colour an empty pixel gets on a non-appending copy is the `background` parameter.
- Gui.Context.constructor: assumes `mpr::Context(n)` records `n` as `image_size_px`. The context's buffers are not modelled.
- Shape identities are `Tree::Id` pointers in the source, ordered by address. Here they are integers ordered numerically, so "key order" means ascending integer order.
- The "Save shape.frep" button, the per-shape labels and the benchmark programs (`benchmark/`) are left out as I/O and timing harnesses.
