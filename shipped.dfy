/**
 * The run of the generator on the tree it ships with: a container that reads
 * the `connection` store, holding a list, holding a preview with one input
 * and one output. Because the walk never leaves a directory it has entered,
 * the three directories end up nested one inside the other.
 */
module Shipped {
  import opened Wrappers
  import opened OrderedMap
  import opened Model
  import opened Walk

  /** The shipped tree is visited container, list, preview. */
  lemma ShippedNodes()
    ensures ShippedTree() == [Container()]
    ensures NodesAll(ShippedTree()) == [Container(), ConnectionList(), Preview()]
  {
    assert Nodes(Preview()) == [Preview()];
    assert Nodes(ConnectionList()) == [ConnectionList(), Preview()];
    assert Nodes(Container()) == [Container(), ConnectionList(), Preview()];
    assert NodesAll([Container()]) == Nodes(Container()) + NodesAll([]);
  }

  /** A component without stores: its directory and its five files. */
  lemma NodeTraceNoStores(cfg: Config, dir: Path, r: Entries, c: Component)
    requires c.retrievesDataFrom == []
    ensures NodeTrace(cfg, dir, r, c) == [MadeDir(dir)] + FiveFiles(cfg, dir, r, c.name)
  {
    assert StoreTrace(cfg, dir, r, []) == [];
  }

  /** A component with one store: its directory, its five files, then the store's file. */
  lemma NodeTraceOneStore(cfg: Config, dir: Path, r: Entries, c: Component, s: Store)
    requires c.retrievesDataFrom == [s]
    ensures NodeTrace(cfg, dir, r, c) == [MadeDir(dir)] + FiveFiles(cfg, dir, r, c.name) + [FileWrite(cfg, dir, r, s.name, STORE)]
  {
    assert StoreTrace(cfg, dir, r, [s]) == [FileWrite(cfg, dir, r, s.name, STORE)];
  }

  /** Three components in a row: three directories, each inside the one before. */
  lemma PlannedThree(cfg: Config, base: Path, r: Entries, a: Component, b: Component, c: Component)
    ensures var d1 := base + [a.name];
      var d2 := d1 + [b.name];
      var d3 := d2 + [c.name];
      PlannedTrace(cfg, base, r, [a, b, c])
      == NodeTrace(cfg, d1, NodeReplacements(r, cfg.keys, a), a)
       + NodeTrace(cfg, d2, NodeReplacements(r, cfg.keys, b), b)
       + NodeTrace(cfg, d3, NodeReplacements(r, cfg.keys, c), c)
  {
    var d1 := base + [a.name];
    var d2 := d1 + [b.name];
    var d3 := d2 + [c.name];
    assert [a, b, c][1..] == [b, c];
    assert [b, c][1..] == [c];
    assert PlannedTrace(cfg, d2, r, [c]) == NodeTrace(cfg, d3, NodeReplacements(r, cfg.keys, c), c) + PlannedTrace(cfg, d3, r, []);
  }

  /**
   * The operations of visiting `a`, `b`, `c` in that order from `out`, when `a`
   * has the one store `s` and `b` and `c` have none: each directory inside the
   * previous one, five files in each, and the store file only in `a`'s
   * directory, after `a`'s five files.
   */
  function LineOps(cfg: Config, out: Path, r: Entries, a: Component, s: Store, b: Component, c: Component): seq<Event>
  {
    var d1 := out + [a.name];
    var d2 := d1 + [b.name];
    var d3 := d2 + [c.name];
    var r1 := NodeReplacements(r, cfg.keys, a);
    var r2 := NodeReplacements(r, cfg.keys, b);
    var r3 := NodeReplacements(r, cfg.keys, c);
    ([MadeDir(d1)] + FiveFiles(cfg, d1, r1, a.name) + [FileWrite(cfg, d1, r1, s.name, STORE)])
    + ([MadeDir(d2)] + FiveFiles(cfg, d2, r2, b.name))
    + ([MadeDir(d3)] + FiveFiles(cfg, d3, r3, c.name))
  }

  /** The planned operations of the walk `a`, `b`, `c` from `out` are `LineOps`. */
  lemma LinePlanned(cfg: Config, out: Path, r: Entries, a: Component, s: Store, b: Component, c: Component)
    requires a.retrievesDataFrom == [s] && b.retrievesDataFrom == [] && c.retrievesDataFrom == []
    ensures PlannedTrace(cfg, out, r, [a, b, c]) == LineOps(cfg, out, r, a, s, b, c)
  {
    var d1 := out + [a.name];
    var d2 := d1 + [b.name];
    var d3 := d2 + [c.name];
    PlannedThree(cfg, out, r, a, b, c);
    NodeTraceOneStore(cfg, d1, NodeReplacements(r, cfg.keys, a), a, s);
    NodeTraceNoStores(cfg, d2, NodeReplacements(r, cfg.keys, b), b);
    NodeTraceNoStores(cfg, d3, NodeReplacements(r, cfg.keys, c), c);
  }

  /** A run over a tree whose walk is `a`, `b`, `c`, with one store in `a` only. */
  lemma LineRun(w: World, cfg: Config, tree: seq<Component>, outputDir: Path, outputDirName: string,
                a: Component, s: Store, b: Component, c: Component)
    requires NodesAll(tree) == [a, b, c]
    requires a.retrievesDataFrom == [s] && b.retrievesDataFrom == [] && c.retrievesDataFrom == []
    requires DistinctKeys(w.replacements)
    ensures var out := outputDir + [outputDirName];
      var w' := GenerateSpec(w, cfg, tree, outputDir, outputDirName);
      && w'.cwd == out + [a.name, b.name, c.name]
      && w'.trace == w.trace + PrepTrace(w.disk, out) + LineOps(cfg, out, w.replacements, a, s, b, c)
      && w'.disk == Replay(w.disk, PrepTrace(w.disk, out) + LineOps(cfg, out, w.replacements, a, s, b, c))
      && w'.replacements == NodeReplacements(w.replacements, cfg.keys, c)
  {
    var out := outputDir + [outputDirName];
    GenerateWalk(w, cfg, tree, outputDir, outputDirName);
    LinePlanned(cfg, out, w.replacements, a, s, b, c);
    assert NamesOf([a, b, c]) == [a.name, b.name, c.name] by {
      assert [a, b, c][1..] == [b, c];
      assert [b, c][1..] == [c];
      assert NamesOf([c]) == [c.name];
      assert NamesOf([b, c]) == [b.name, c.name];
    }
    var ops := LineOps(cfg, out, w.replacements, a, s, b, c);
    assert (w.trace + PrepTrace(w.disk, out)) + ops == w.trace + (PrepTrace(w.disk, out) + ops);
  }

  /**
   * `new Generator().generate()` on the shipped tree: the process ends in
   * `output/connection-list-container/connection-list/connection-preview`;
   * after clearing and remaking `output` the operations are the nineteen of
   * `LineOps`: five files in each of the three nested directories, and the
   * `connection` store file in the container's directory only.
   */
  lemma ShippedRun(w: World, cfg: Config, tree: seq<Component>, outputDir: Path)
    requires tree == ShippedTree()
    requires DistinctKeys(w.replacements)
    ensures var out := outputDir + ["output"];
      var w' := GenerateSpec(w, cfg, tree, outputDir, "output");
      var ops := LineOps(cfg, out, w.replacements, Container(), Store("connection"), ConnectionList(), Preview());
      && w'.cwd == out + ["connection-list-container", "connection-list", "connection-preview"]
      && w'.trace == w.trace + PrepTrace(w.disk, out) + ops
      && w'.disk == Replay(w.disk, PrepTrace(w.disk, out) + ops)
      && w'.replacements == NodeReplacements(w.replacements, cfg.keys, Preview())
  {
    ShippedNodes();
    LineRun(w, cfg, tree, outputDir, "output", Container(), Store("connection"), ConnectionList(), Preview());
  }
}
