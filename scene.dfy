/**
 * The shape cache of the viewer: `std::map<Tree::Id, Shape>` kept in line
 * with the trees the interpreter reports for the current script.
 *
 * A shape identity (`libfive::Tree::Id`) is an `int`; a tree is opaque.
 * Building an `mpr::Tape` from a tree is the expensive step the cache exists
 * to avoid; a tape records the tree it was compiled from.
 */
module Scene {

  /** A symbolic expression tree, as produced by the interpreter. */
  type Tree(==)

  /** A GPU evaluation program (`mpr::Tape`) compiled from `source`. */
  datatype Tape = Tape(source: Tree)

  /** A cached shape: the compiled tape and the tree it came from. */
  datatype Shape = Shape(tape: Tape, tree: Tree)

  /** The shape built for a tree that enters the scene: `Shape{Tape(t), t}`. */
  function Build(t: Tree): Shape {
    Shape(Tape(t), t)
  }

  /**
   * The eviction pass: the entries of `shapes` whose key is still reported
   * by the interpreter, each left as it was.
   */
  function Evicted(shapes: map<int, Shape>, live: set<int>): (r: map<int, Shape>)
    ensures r.Keys == shapes.Keys * live
    ensures forall k :: k in r ==> r[k] == shapes[k]
  {
    map k | k in shapes && k in live :: shapes[k]
  }

  /**
   * The insertion pass: every key of `current` missing from `shapes` gets a
   * freshly built shape; entries already present are never replaced.
   */
  function Inserted(shapes: map<int, Shape>, current: map<int, Tree>): (r: map<int, Shape>)
    ensures r.Keys == shapes.Keys + current.Keys
    ensures forall k :: k in shapes ==> r[k] == shapes[k]
    ensures forall k :: k in current && k !in shapes ==> r[k] == Build(current[k])
  {
    shapes + map k | k in current && k !in shapes :: Build(current[k])
  }

  /** The keys whose tapes a reconciliation has to compile. */
  function Compilations(shapes: map<int, Shape>, current: map<int, Tree>): (r: set<int>)
    ensures r <= current.Keys && r !! shapes.Keys
    ensures |r| == |current.Keys| - |current.Keys * shapes.Keys|
  {
    var r := current.Keys - shapes.Keys;
    assert r + current.Keys * shapes.Keys == current.Keys;
    assert r * (current.Keys * shapes.Keys) == {};
    r
  }

  /**
   * A full reconciliation: eviction, then insertion. The result holds
   * exactly the interpreter's keys; a key that survives keeps its shape
   * (and so its tape), a new key holds the tape compiled from its tree.
   */
  function Reconciled(shapes: map<int, Shape>, current: map<int, Tree>): (r: map<int, Shape>)
    ensures r.Keys == current.Keys
    ensures forall k :: k in current && k in shapes ==> r[k] == shapes[k]
    ensures forall k :: k in current && k !in shapes ==>
      r[k] == Build(current[k]) && r[k].tape.source == current[k]
  {
    Inserted(Evicted(shapes, current.Keys), current)
  }

  /**
   * Eviction does not change which of the interpreter's keys need a tape:
   * the eviction pass only removes keys the insertion pass never looks at.
   */
  lemma EvictionKeepsCompilations(shapes: map<int, Shape>, current: map<int, Tree>)
    ensures Compilations(Evicted(shapes, current.Keys), current) == Compilations(shapes, current)
  {
    var e := Evicted(shapes, current.Keys);
    forall k | k in current
      ensures k in e <==> k in shapes
    {
    }
  }

  /**
   * Reconciling again with the same interpreter output compiles nothing and
   * changes nothing: every key is already present with its shape.
   */
  lemma ReconcileIsStable(shapes: map<int, Shape>, current: map<int, Tree>, again: map<int, Tree>)
    requires again.Keys == current.Keys
    ensures Compilations(Reconciled(shapes, current), again) == {}
    ensures Reconciled(Reconciled(shapes, current), again) == Reconciled(shapes, current)
  {
    var r := Reconciled(shapes, current);
    var r2 := Reconciled(r, again);
    forall k | k in again
      ensures k in r && r2[k] == r[k]
    {
    }
    assert r2.Keys == r.Keys;
  }

  /**
   * A shape whose key disappears from the interpreter's output is gone after
   * reconciliation, and reappears only as a freshly built shape.
   */
  lemma ReconcileEvicts(shapes: map<int, Shape>, first: map<int, Tree>, second: map<int, Tree>, k: int)
    requires k in first && k !in second
    ensures k !in Reconciled(Reconciled(shapes, first), second)
    ensures forall third: map<int, Tree> :: k in third ==>
      Reconciled(Reconciled(Reconciled(shapes, first), second), third)[k] == Build(third[k])
  {
  }

  /**
   * A tree identity names one tree, so a cache whose every shape was built
   * from the tree its key stands for ends, after reconciliation, as exactly
   * the interpreter's trees, each with the tape compiled from it.
   */
  lemma ReconcileBuildsScript(shapes: map<int, Shape>, current: map<int, Tree>)
    requires forall k :: k in shapes && k in current ==> shapes[k] == Build(current[k])
    ensures Reconciled(shapes, current) == map k | k in current :: Build(current[k])
  {
    var r, want := Reconciled(shapes, current), map k | k in current :: Build(current[k]);
    forall k | k in current
      ensures r[k] == want[k]
    {
    }
  }
}
