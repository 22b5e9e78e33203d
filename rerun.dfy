/**
 * Running the generator twice: `generate` clears the output directory before
 * it writes anything, and every later operation of the run stays inside that
 * directory and removes nothing, so a second run puts the disk back exactly
 * as the first run left it.
 */
module Rerun {
  import opened OrderedMap
  import opened Model
  import opened Walk

  /** No directory and no file of `d` lies at or below `p`. */
  predicate NothingUnder(d: Disk, p: Path)
  {
    && (forall q :: q in d.dirs ==> !Under(p, q))
    && (forall q :: q in d.files ==> !Under(p, q))
  }

  /** Every operation of `es` works at or below `root`, and none of them removes anything. */
  predicate InsideNoRemoval(es: seq<Event>, root: Path)
  {
    forall i :: 0 <= i < |es| ==> !es[i].Removed? && Under(root, es[i].path)
  }

  lemma UnderTrans(a: Path, b: Path, c: Path)
    requires Under(a, b) && Under(b, c)
    ensures Under(a, c)
  {
    assert c[..|a|] == c[..|b|][..|a|];
  }

  lemma InsideAppend(a: seq<Event>, b: seq<Event>, root: Path)
    requires InsideNoRemoval(a, root) && InsideNoRemoval(b, root)
    ensures InsideNoRemoval(a + b, root)
  {
    forall i | 0 <= i < |a + b|
      ensures !(a + b)[i].Removed? && Under(root, (a + b)[i].path)
    {
      if i >= |a| {
        assert (a + b)[i] == b[i - |a|];
      }
    }
  }

  /** Everything one component's visit does happens inside its own directory `dir`. */
  lemma NodeInside(cfg: Config, dir: Path, r: Entries, c: Component)
    ensures InsideNoRemoval(NodeTrace(cfg, dir, r, c), dir)
  {
    forall x: string
      ensures Under(dir, dir + [x])
    {
      assert (dir + [x])[..|dir|] == dir;
    }
    assert InsideNoRemoval([MadeDir(dir)] + FiveFiles(cfg, dir, r, c.name), dir);
    InsideAppend([MadeDir(dir)] + FiveFiles(cfg, dir, r, c.name), StoreTrace(cfg, dir, r, c.retrievesDataFrom), dir);
  }

  /** The planned operations from `base` all happen inside `base` and remove nothing. */
  lemma {:induction false} PlannedInside(cfg: Config, base: Path, r: Entries, nodes: seq<Component>)
    ensures InsideNoRemoval(PlannedTrace(cfg, base, r, nodes), base)
    decreases |nodes|
  {
    if nodes != [] {
      var dir := base + [nodes[0].name];
      var head := NodeTrace(cfg, dir, NodeReplacements(r, cfg.keys, nodes[0]), nodes[0]);
      var tail := PlannedTrace(cfg, dir, r, nodes[1..]);
      assert Under(base, dir) by {
        assert dir[..|base|] == base;
      }
      NodeInside(cfg, dir, NodeReplacements(r, cfg.keys, nodes[0]), nodes[0]);
      PlannedInside(cfg, dir, r, nodes[1..]);
      var es := head + tail;
      forall i | 0 <= i < |es|
        ensures !es[i].Removed? && Under(base, es[i].path)
      {
        if i < |head| {
          UnderTrans(base, dir, head[i].path);
        } else {
          assert es[i] == tail[i - |head|];
          UnderTrans(base, dir, tail[i - |head|].path);
        }
      }
    }
  }

  /** Removing `out` undoes an operation made inside `out`. */
  lemma ApplyThenRemove(d: Disk, e: Event, out: Path)
    requires !e.Removed? && Under(out, e.path)
    ensures Apply(Apply(d, e), Removed(out)) == Apply(d, Removed(out))
  {
    var lhs, rhs := Apply(Apply(d, e), Removed(out)), Apply(d, Removed(out));
    assert lhs.dirs == rhs.dirs;
    assert lhs.files.Keys == rhs.files.Keys;
  }

  /** Removing `out` undoes a whole sequence of operations made inside `out` that removes nothing. */
  lemma {:induction false} ReplayThenRemove(d: Disk, es: seq<Event>, out: Path)
    requires InsideNoRemoval(es, out)
    ensures Apply(Replay(d, es), Removed(out)) == Apply(d, Removed(out))
    decreases |es|
  {
    if es != [] {
      assert InsideNoRemoval(es[1..], out) by {
        forall i | 0 <= i < |es[1..]|
          ensures !es[1..][i].Removed? && Under(out, es[1..][i].path)
        {
          assert es[1..][i] == es[i + 1];
        }
      }
      ReplayThenRemove(Apply(d, es[0]), es[1..], out);
      ApplyThenRemove(d, es[0], out);
    }
  }

  /** Removing a path under which nothing lies changes nothing. */
  lemma RemoveNothing(d: Disk, out: Path)
    requires NothingUnder(d, out)
    ensures Apply(d, Removed(out)) == d
  {
    var d' := Apply(d, Removed(out));
    assert d'.dirs == d.dirs;
    assert d'.files.Keys == d.files.Keys;
  }

  /** After `out` is removed, nothing lies under it. */
  lemma RemovedLeavesNothing(d: Disk, out: Path)
    ensures NothingUnder(Apply(d, Removed(out)), out)
  {
  }

  /** Operations that remove nothing keep every directory. */
  lemma {:induction false} ReplayKeepsDirs(d: Disk, es: seq<Event>, out: Path)
    requires InsideNoRemoval(es, out)
    ensures d.dirs <= Replay(d, es).dirs
    decreases |es|
  {
    if es != [] {
      assert InsideNoRemoval(es[1..], out) by {
        forall i | 0 <= i < |es[1..]|
          ensures !es[1..][i].Removed? && Under(out, es[1..][i].path)
        {
          assert es[1..][i] == es[i + 1];
        }
      }
      ReplayKeepsDirs(Apply(d, es[0]), es[1..], out);
    }
  }

  /** The table left after a run still has distinct keys. */
  lemma GenerateKeys(w: World, cfg: Config, tree: seq<Component>, outputDir: Path, outputDirName: string)
    requires DistinctKeys(w.replacements)
    ensures DistinctKeys(GenerateSpec(w, cfg, tree, outputDir, outputDirName).replacements)
  {
    GenerateWalk(w, cfg, tree, outputDir, outputDirName);
    if tree != [] {
      NodeReplacementsKeys(w.replacements, cfg.keys, Last(NodesAll(tree)));
    }
  }

  /**
   * Clearing the output directory again undoes the preparation and the planned
   * operations of the first run: the second preparation starts from the disk
   * the first one made.
   */
  lemma SecondPrepare(w: World, cfg: Config, tree: seq<Component>, outputDir: Path, outputDirName: string)
    requires DistinctKeys(w.replacements)
    requires var out := outputDir + [outputDirName];
      Exists(w.disk, out) || NothingUnder(w.disk, out)
    ensures var w1 := GenerateSpec(w, cfg, tree, outputDir, outputDirName);
      PrepareOutput(w1, outputDir, outputDirName).disk == PrepareOutput(w, outputDir, outputDirName).disk
  {
    var out := outputDir + [outputDirName];
    var nodes := NodesAll(tree);
    var w1 := GenerateSpec(w, cfg, tree, outputDir, outputDirName);
    var p1 := PrepareOutput(w, outputDir, outputDirName);
    PrepareStep(w, outputDir, outputDirName);
    var cleared := if Exists(w.disk, out) then Apply(w.disk, Removed(out)) else w.disk;
    assert p1.disk == Apply(cleared, MadeDir(out));
    var planned := PlannedTrace(cfg, out, w.replacements, nodes);
    ChildrenTrace(p1, cfg, tree);
    assert w1.disk == Replay(p1.disk, planned);
    PlannedInside(cfg, out, w.replacements, nodes);

    // The second run finds `out`, since nothing was removed after it was made.
    ReplayKeepsDirs(p1.disk, planned, out);
    assert Exists(w1.disk, out);
    // Removing it takes the disk back to `cleared`.
    if Exists(w.disk, out) {
      RemovedLeavesNothing(w.disk, out);
    }
    ReplayThenRemove(p1.disk, planned, out);
    assert Under(out, out) by {
      assert out[..|out|] == out;
    }
    ApplyThenRemove(cleared, MadeDir(out), out);
    RemoveNothing(cleared, out);
  }

  /**
   * Running `generate` a second time, straight after the first, leaves the
   * same disk, the same working directory and the same table as the first run.
   * The second precondition excludes a disk that holds entries below the
   * output directory without holding the directory itself: the first run
   * would not clear those (`fs.existsSync` is false), the second would.
   */
  lemma GenerateTwice(w: World, cfg: Config, tree: seq<Component>, outputDir: Path, outputDirName: string)
    requires DistinctKeys(w.replacements)
    requires var out := outputDir + [outputDirName];
      Exists(w.disk, out) || NothingUnder(w.disk, out)
    ensures var w1 := GenerateSpec(w, cfg, tree, outputDir, outputDirName);
      var w2 := GenerateSpec(w1, cfg, tree, outputDir, outputDirName);
      && w2.disk == w1.disk
      && w2.cwd == w1.cwd
      && w2.replacements == w1.replacements
  {
    var out := outputDir + [outputDirName];
    var nodes := NodesAll(tree);
    var r0 := w.replacements;
    var w1 := GenerateSpec(w, cfg, tree, outputDir, outputDirName);
    GenerateKeys(w, cfg, tree, outputDir, outputDirName);
    GenerateWalk(w, cfg, tree, outputDir, outputDirName);
    GenerateWalk(w1, cfg, tree, outputDir, outputDirName);
    if tree != [] {
      NodeReplacementsAbsorb(r0, cfg.keys, Last(nodes), Last(nodes));
    }
    // Both runs replay the same planned operations on the same prepared disk:
    // the table the second run starts from only adds the last component's values.
    var p1 := PrepareOutput(w, outputDir, outputDirName);
    var p2 := PrepareOutput(w1, outputDir, outputDirName);
    PrepareStep(w, outputDir, outputDirName);
    PrepareStep(w1, outputDir, outputDirName);
    SecondPrepare(w, cfg, tree, outputDir, outputDirName);
    ChildrenTrace(p1, cfg, tree);
    ChildrenTrace(p2, cfg, tree);
    if tree != [] {
      PlannedAbsorb(cfg, out, r0, Last(nodes), nodes);
    }
  }
}
