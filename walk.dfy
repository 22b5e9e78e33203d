/**
 * What one run of the generator does, stated without the walk: the disk
 * operations of every component, in visiting order, each in its directory.
 *
 * The walk enters each component's directory and never leaves it, so the
 * k-th component visited (in pre-order) gets its directory inside the
 * (k-1)-th one's: later siblings end up nested under earlier ones.
 */
module Walk {
  import opened Wrappers
  import opened Text
  import opened OrderedMap
  import opened Substitution
  import opened Bindings
  import opened Model

  /** The components in the order the walk visits them: a component, then its children's subtrees in order. */
  function Nodes(c: Component): seq<Component>
    decreases c, 1
  {
    [c] + NodesAll(c.children)
  }

  function NodesAll(cs: seq<Component>): seq<Component>
    decreases cs, 0
  {
    if cs == [] then [] else Nodes(cs[0]) + NodesAll(cs[1..])
  }

  /** The names of `ns`, in order. */
  function NamesOf(ns: seq<Component>): seq<string>
  {
    if ns == [] then [] else [ns[0].name] + NamesOf(ns[1..])
  }

  /** The file of kind `kind` for base name `name`, written in `dir` with replacement table `r`. */
  function FileWrite(cfg: Config, dir: Path, r: Entries, name: string, kind: GeneratedType): Event
  {
    FileEvent(cfg, dir, r, name, cfg.typesMap(kind))
  }

  /** The five component files for base name `name`, in the order COMPONENT, HTML, MODULE, SASS, SPEC. */
  function FiveFiles(cfg: Config, dir: Path, r: Entries, name: string): seq<Event>
  {
    [FileWrite(cfg, dir, r, name, COMPONENT),
     FileWrite(cfg, dir, r, name, HTML),
     FileWrite(cfg, dir, r, name, MODULE),
     FileWrite(cfg, dir, r, name, SASS),
     FileWrite(cfg, dir, r, name, SPEC)]
  }

  /** One store file per store, in declared order. */
  function StoreTrace(cfg: Config, dir: Path, r: Entries, stores: seq<Store>): seq<Event>
  {
    seq(|stores|, i requires 0 <= i < |stores| => FileWrite(cfg, dir, r, stores[i].name, STORE))
  }

  /** A component's own operations: its directory, its five files in order, then its store files. */
  function NodeTrace(cfg: Config, dir: Path, r: Entries, c: Component): seq<Event>
  {
    [MadeDir(dir)] + FiveFiles(cfg, dir, r, c.name) + StoreTrace(cfg, dir, r, c.retrievesDataFrom)
  }

  /**
   * The operations of visiting `nodes` in order starting in `base` with the
   * table `r0`: each node's directory is made inside the previous node's, and
   * each node's files use `r0` with that node's five placeholders set.
   */
  function PlannedTrace(cfg: Config, base: Path, r0: Entries, nodes: seq<Component>): seq<Event>
    decreases |nodes|
  {
    if nodes == [] then []
    else
      var dir := base + [nodes[0].name];
      NodeTrace(cfg, dir, NodeReplacements(r0, cfg.keys, nodes[0]), nodes[0])
      + PlannedTrace(cfg, dir, r0, nodes[1..])
  }

  /** `w2` is `w1` after the operations `es`: they are recorded and applied to the disk. */
  predicate After(w1: World, es: seq<Event>, w2: World)
  {
    w2.trace == w1.trace + es && w2.disk == Replay(w1.disk, es)
  }

  lemma {:induction false} ReplayAppend(d: Disk, a: seq<Event>, b: seq<Event>)
    ensures Replay(d, a + b) == Replay(Replay(d, a), b)
    decreases |a|
  {
    if a == [] {
      assert a + b == b;
    } else {
      assert (a + b)[1..] == a[1..] + b;
      ReplayAppend(Apply(d, a[0]), a[1..], b);
    }
  }

  lemma AfterTrans(w1: World, a: seq<Event>, w2: World, b: seq<Event>, w3: World)
    requires After(w1, a, w2) && After(w2, b, w3)
    ensures After(w1, a + b, w3)
  {
    ReplayAppend(w1.disk, a, b);
  }

  lemma AfterDo(w: World, e: Event)
    ensures After(w, [e], Do(w, e))
  {
    assert Replay(Apply(w.disk, e), []) == Apply(w.disk, e);
  }

  /** `generateFiles`: one directory, entered, and five files in the order COMPONENT, HTML, MODULE, SASS, SPEC. */
  lemma GenerateFilesStep(w: World, cfg: Config, name: string)
    ensures var w' := GenerateFilesSpec(w, cfg, name);
      && w'.cwd == w.cwd + [name]
      && w'.replacements == w.replacements
      && After(w, [MadeDir(w.cwd + [name])] + FiveFiles(cfg, w.cwd + [name], w.replacements, name), w')
  {
    var dir := w.cwd + [name];
    var r := w.replacements;
    var w1 := Do(w, MadeDir(dir)).(cwd := dir);
    AfterDo(w, MadeDir(dir));
    var w2 := WriteFileSpec(w1, cfg, name, cfg.typesMap(COMPONENT));
    var e2 := FileWrite(cfg, dir, r, name, COMPONENT);
    AfterDo(w1, e2);
    AfterTrans(w, [MadeDir(dir)], w1, [e2], w2);
    assert [MadeDir(dir)] + [e2] == [MadeDir(dir), e2];
    var w3 := WriteFileSpec(w2, cfg, name, cfg.typesMap(HTML));
    var e3 := FileWrite(cfg, dir, r, name, HTML);
    AfterDo(w2, e3);
    AfterTrans(w, [MadeDir(dir), e2], w2, [e3], w3);
    assert [MadeDir(dir), e2] + [e3] == [MadeDir(dir), e2, e3];
    var w4 := WriteFileSpec(w3, cfg, name, cfg.typesMap(MODULE));
    var e4 := FileWrite(cfg, dir, r, name, MODULE);
    AfterDo(w3, e4);
    AfterTrans(w, [MadeDir(dir), e2, e3], w3, [e4], w4);
    assert [MadeDir(dir), e2, e3] + [e4] == [MadeDir(dir), e2, e3, e4];
    var w5 := WriteFileSpec(w4, cfg, name, cfg.typesMap(SASS));
    var e5 := FileWrite(cfg, dir, r, name, SASS);
    AfterDo(w4, e5);
    AfterTrans(w, [MadeDir(dir), e2, e3, e4], w4, [e5], w5);
    assert [MadeDir(dir), e2, e3, e4] + [e5] == [MadeDir(dir), e2, e3, e4, e5];
    var w6 := WriteFileSpec(w5, cfg, name, cfg.typesMap(SPEC));
    var e6 := FileWrite(cfg, dir, r, name, SPEC);
    AfterDo(w5, e6);
    AfterTrans(w, [MadeDir(dir), e2, e3, e4, e5], w5, [e6], w6);
    assert [MadeDir(dir), e2, e3, e4, e5] + [e6] == [MadeDir(dir)] + FiveFiles(cfg, dir, r, name);
  }

  /** The store files: one per store, in declared order, in the current directory, with the current table. */
  lemma {:induction false} StoresStep(w: World, cfg: Config, stores: seq<Store>)
    ensures var w' := StoresSpec(w, cfg, stores);
      && w'.cwd == w.cwd
      && w'.replacements == w.replacements
      && After(w, StoreTrace(cfg, w.cwd, w.replacements, stores), w')
    decreases |stores|
  {
    if stores == [] {
      assert StoreTrace(cfg, w.cwd, w.replacements, stores) == [];
    } else {
      var w1 := StoreSpec(w, cfg, stores[0]);
      AfterDo(w, FileWrite(cfg, w.cwd, w.replacements, stores[0].name, STORE));
      StoresStep(w1, cfg, stores[1..]);
      var tail := StoreTrace(cfg, w.cwd, w.replacements, stores[1..]);
      AfterTrans(w, [FileWrite(cfg, w.cwd, w.replacements, stores[0].name, STORE)], w1, tail, StoresSpec(w1, cfg, stores[1..]));
      assert StoreTrace(cfg, w.cwd, w.replacements, stores) == [FileWrite(cfg, w.cwd, w.replacements, stores[0].name, STORE)] + tail;
    }
  }

  /** A component's own work, as one block of operations in its new directory. */
  lemma VisitStep(w: World, cfg: Config, c: Component)
    ensures var w' := VisitSpec(w, cfg, c);
      var r := NodeReplacements(w.replacements, cfg.keys, c);
      && w'.cwd == w.cwd + [c.name]
      && w'.replacements == r
      && After(w, NodeTrace(cfg, w.cwd + [c.name], r, c), w')
  {
    var r := NodeReplacements(w.replacements, cfg.keys, c);
    var w1 := w.(replacements := r);
    var w2 := GenerateFilesSpec(w1, cfg, c.name);
    GenerateFilesStep(w1, cfg, c.name);
    StoresStep(w2, cfg, c.retrievesDataFrom);
    AfterTrans(w1, w2.trace[|w1.trace|..], w2,
               StoreTrace(cfg, w2.cwd, r, c.retrievesDataFrom), StoresSpec(w2, cfg, c.retrievesDataFrom));
  }

  /** The key list after `Map.set(k, ...)`: unchanged if `k` is present, else `k` appended. */
  function AddKey(ks: seq<string>, k: string): seq<string>
  {
    if k in ks then ks else ks + [k]
  }

  /** The key list after the five `set` calls of `dealWithComponent`. */
  function WithPlaceholders(ks: seq<string>, keys: Placeholders): seq<string>
  {
    AddKey(AddKey(AddKey(AddKey(AddKey(ks, keys.dashName), keys.camelName), keys.camelNameFirstUp), keys.inputs), keys.outputs)
  }

  /** Once the placeholders are in the table, setting them again does not move any key. */
  lemma WithPlaceholdersTwice(ks: seq<string>, keys: Placeholders)
    ensures WithPlaceholders(WithPlaceholders(ks, keys), keys) == WithPlaceholders(ks, keys)
  {
    var once := WithPlaceholders(ks, keys);
    assert forall x, k :: x in ks ==> x in AddKey(ks, k);
    assert keys.dashName in once && keys.camelName in once && keys.camelNameFirstUp in once;
    assert keys.inputs in once && keys.outputs in once;
  }

  lemma NodeReplacementsKeys(r: Entries, keys: Placeholders, c: Component)
    requires DistinctKeys(r)
    ensures DistinctKeys(NodeReplacements(r, keys, c))
    ensures Keys(NodeReplacements(r, keys, c)) == WithPlaceholders(Keys(r), keys)
  {
    var camel := ReplaceAll(c.name, "-", "");
    var r1 := Set(r, keys.dashName, c.name);
    SetSemantics(r, keys.dashName, c.name);
    var r2 := Set(r1, keys.camelName, camel);
    SetSemantics(r1, keys.camelName, camel);
    var r3 := Set(r2, keys.camelNameFirstUp, camel);
    SetSemantics(r2, keys.camelNameFirstUp, camel);
    var r4 := Set(r3, keys.inputs, GenerateInputs(c.inputList));
    SetSemantics(r3, keys.inputs, GenerateInputs(c.inputList));
    SetSemantics(r4, keys.outputs, GenerateOutputs(c.outputList));
  }

  /** The value a lookup returns after `dealWithComponent`'s five `set` calls. */
  function PlaceholderValue(r: Entries, keys: Placeholders, c: Component, k: string): Option<string>
  {
    if k == keys.outputs then Some(GenerateOutputs(c.outputList))
    else if k == keys.inputs then Some(GenerateInputs(c.inputList))
    else if k == keys.camelNameFirstUp || k == keys.camelName then Some(Without(c.name, '-'))
    else if k == keys.dashName then Some(c.name)
    else Get(r, k)
  }

  lemma NodeReplacementsGet(r: Entries, keys: Placeholders, c: Component, k: string)
    requires DistinctKeys(r)
    ensures Get(NodeReplacements(r, keys, c), k) == PlaceholderValue(r, keys, c, k)
  {
    var camel := ReplaceAll(c.name, "-", "");
    ReplaceCharByNothing(c.name, '-');
    var r1 := Set(r, keys.dashName, c.name);
    SetKeepsDistinct(r, keys.dashName, c.name);
    var r2 := Set(r1, keys.camelName, camel);
    SetKeepsDistinct(r1, keys.camelName, camel);
    var r3 := Set(r2, keys.camelNameFirstUp, camel);
    SetKeepsDistinct(r2, keys.camelNameFirstUp, camel);
    var r4 := Set(r3, keys.inputs, GenerateInputs(c.inputList));
    SetKeepsDistinct(r3, keys.inputs, GenerateInputs(c.inputList));
    var r5 := Set(r4, keys.outputs, GenerateOutputs(c.outputList));
    if k == keys.outputs {
      SetGetSame(r4, keys.outputs, GenerateOutputs(c.outputList));
    } else {
      SetGetOther(r4, keys.outputs, GenerateOutputs(c.outputList), k);
      if k == keys.inputs {
        SetGetSame(r3, keys.inputs, GenerateInputs(c.inputList));
      } else {
        SetGetOther(r3, keys.inputs, GenerateInputs(c.inputList), k);
        if k == keys.camelNameFirstUp {
          SetGetSame(r2, keys.camelNameFirstUp, camel);
        } else {
          SetGetOther(r2, keys.camelNameFirstUp, camel, k);
          if k == keys.camelName {
            SetGetSame(r1, keys.camelName, camel);
          } else {
            SetGetOther(r1, keys.camelName, camel, k);
            if k == keys.dashName {
              SetGetSame(r, keys.dashName, c.name);
            } else {
              SetGetOther(r, keys.dashName, c.name, k);
            }
          }
        }
      }
    }
  }

  /**
   * `dealWithComponent` sets exactly the five placeholders: the dash name to
   * the name, both camel placeholders to the name with every `-` removed and
   * nothing else changed, the input and output placeholders to the binding
   * texts; every other entry keeps its value and its place, and a placeholder
   * not yet in the table is appended.
   */
  lemma NodeReplacementsEffect(r: Entries, keys: Placeholders, c: Component)
    requires DistinctKeys(r)
    ensures var n := NodeReplacements(r, keys, c);
      && DistinctKeys(n)
      && Keys(n) == WithPlaceholders(Keys(r), keys)
      && (forall k :: Get(n, k) == PlaceholderValue(r, keys, c, k))
  {
    NodeReplacementsKeys(r, keys, c);
    forall k
      ensures Get(NodeReplacements(r, keys, c), k) == PlaceholderValue(r, keys, c, k)
    {
      NodeReplacementsGet(r, keys, c, k);
    }
  }

  /**
   * Only the last component's placeholders survive: setting them again for
   * another component gives the table that component would get from the start.
   */
  lemma NodeReplacementsAbsorb(r: Entries, keys: Placeholders, a: Component, b: Component)
    requires DistinctKeys(r)
    ensures NodeReplacements(NodeReplacements(r, keys, a), keys, b) == NodeReplacements(r, keys, b)
  {
    var ra := NodeReplacements(r, keys, a);
    var twice, once := NodeReplacements(ra, keys, b), NodeReplacements(r, keys, b);
    NodeReplacementsKeys(r, keys, a);
    NodeReplacementsKeys(ra, keys, b);
    NodeReplacementsKeys(r, keys, b);
    WithPlaceholdersTwice(Keys(r), keys);
    assert Keys(twice) == Keys(once);
    forall k
      ensures Get(twice, k) == Get(once, k)
    {
      NodeReplacementsGet(ra, keys, b, k);
      NodeReplacementsGet(r, keys, b, k);
      if k !in {keys.outputs, keys.inputs, keys.camelNameFirstUp, keys.camelName, keys.dashName} {
        NodeReplacementsGet(r, keys, a, k);
      }
    }
    Extensionality(twice, once);
  }

  lemma {:induction false} PlannedAbsorb(cfg: Config, base: Path, r: Entries, x: Component, nodes: seq<Component>)
    requires DistinctKeys(r)
    ensures PlannedTrace(cfg, base, NodeReplacements(r, cfg.keys, x), nodes) == PlannedTrace(cfg, base, r, nodes)
    decreases |nodes|
  {
    if nodes != [] {
      NodeReplacementsAbsorb(r, cfg.keys, x, nodes[0]);
      PlannedAbsorb(cfg, base + [nodes[0].name], r, x, nodes[1..]);
    }
  }

  /** The directory reached from `base` by entering the directory of each of `nodes` in turn. */
  function Descend(base: Path, nodes: seq<Component>): Path
    decreases |nodes|
  {
    if nodes == [] then base else Descend(base + [nodes[0].name], nodes[1..])
  }

  lemma {:induction false} DescendAppend(base: Path, a: seq<Component>, b: seq<Component>)
    ensures Descend(base, a + b) == Descend(Descend(base, a), b)
    decreases |a|
  {
    if a == [] {
      assert a + b == b;
    } else {
      assert (a + b)[1..] == a[1..] + b;
      DescendAppend(base + [a[0].name], a[1..], b);
    }
  }

  /** Visiting `a` then `b` is visiting `a`, then visiting `b` from the directory `a` left. */
  lemma {:induction false} PlannedAppend(cfg: Config, base: Path, r: Entries, a: seq<Component>, b: seq<Component>)
    ensures PlannedTrace(cfg, base, r, a + b)
         == PlannedTrace(cfg, base, r, a) + PlannedTrace(cfg, Descend(base, a), r, b)
    decreases |a|
  {
    if a == [] {
      assert a + b == b;
    } else {
      assert (a + b)[0] == a[0];
      assert (a + b)[1..] == a[1..] + b;
      PlannedAppend(cfg, base + [a[0].name], r, a[1..], b);
    }
  }

  function Last(ns: seq<Component>): Component
    requires ns != []
  {
    ns[|ns| - 1]
  }


  lemma VisitCwd(w: World, cfg: Config, c: Component)
    ensures VisitSpec(w, cfg, c).cwd == w.cwd + [c.name]
  {
    VisitStep(w, cfg, c);
  }

  /** Entering the directories of `nodes` one inside the other appends their names to the path. */
  lemma {:induction false} DescendNames(base: Path, nodes: seq<Component>)
    ensures Descend(base, nodes) == base + NamesOf(nodes)
    decreases |nodes|
  {
    if nodes != [] {
      DescendNames(base + [nodes[0].name], nodes[1..]);
      assert (base + [nodes[0].name]) + NamesOf(nodes[1..]) == base + ([nodes[0].name] + NamesOf(nodes[1..]));
    }
  }

  lemma {:induction false} ComponentCwd(w: World, cfg: Config, c: Component)
    ensures ComponentSpec(w, cfg, c).cwd == Descend(w.cwd, Nodes(c))
    decreases c, 1
  {
    var w1 := VisitSpec(w, cfg, c);
    VisitCwd(w, cfg, c);
    ChildrenCwd(w1, cfg, c.children);
    assert Nodes(c)[1..] == NodesAll(c.children);
  }

  lemma {:induction false} ChildrenCwd(w: World, cfg: Config, cs: seq<Component>)
    ensures ChildrenSpec(w, cfg, cs).cwd == Descend(w.cwd, NodesAll(cs))
    decreases cs, 0
  {
    if cs != [] {
      var w1 := ComponentSpec(w, cfg, cs[0]);
      ComponentCwd(w, cfg, cs[0]);
      ChildrenCwd(w1, cfg, cs[1..]);
      DescendAppend(w.cwd, Nodes(cs[0]), NodesAll(cs[1..]));
    }
  }

  lemma VisitTable(w: World, cfg: Config, c: Component)
    ensures VisitSpec(w, cfg, c).replacements == NodeReplacements(w.replacements, cfg.keys, c)
  {
    VisitStep(w, cfg, c);
  }

  lemma NodesAllEmpty(cs: seq<Component>)
    ensures NodesAll(cs) == [] <==> cs == []
  {
    if cs != [] {
      assert |Nodes(cs[0])| >= 1;
    }
  }

  lemma {:induction false} ComponentTable(w: World, cfg: Config, c: Component)
    requires DistinctKeys(w.replacements)
    ensures ComponentSpec(w, cfg, c).replacements == NodeReplacements(w.replacements, cfg.keys, Last(Nodes(c)))
    decreases c, 1
  {
    var r := w.replacements;
    var w1 := VisitSpec(w, cfg, c);
    VisitTable(w, cfg, c);
    NodeReplacementsKeys(r, cfg.keys, c);
    ChildrenTable(w1, cfg, c.children);
    NodesAllEmpty(c.children);
    assert ComponentSpec(w, cfg, c) == ChildrenSpec(w1, cfg, c.children);
    assert Nodes(c) == [c] + NodesAll(c.children);
    if c.children != [] {
      var rest := NodesAll(c.children);
      NodeReplacementsAbsorb(r, cfg.keys, c, Last(rest));
      assert Last(Nodes(c)) == Last(rest);
    }
  }

  lemma {:induction false} ChildrenTable(w: World, cfg: Config, cs: seq<Component>)
    requires DistinctKeys(w.replacements)
    ensures cs != [] ==>
      && NodesAll(cs) != []
      && ChildrenSpec(w, cfg, cs).replacements == NodeReplacements(w.replacements, cfg.keys, Last(NodesAll(cs)))
    ensures cs == [] ==> ChildrenSpec(w, cfg, cs).replacements == w.replacements
    decreases cs, 0
  {
    if cs != [] {
      var r := w.replacements;
      var first, rest := Nodes(cs[0]), NodesAll(cs[1..]);
      var w1 := ComponentSpec(w, cfg, cs[0]);
      ComponentTable(w, cfg, cs[0]);
      NodeReplacementsKeys(r, cfg.keys, Last(first));
      ChildrenTable(w1, cfg, cs[1..]);
      NodesAllEmpty(cs[1..]);
      if cs[1..] != [] {
        NodeReplacementsAbsorb(r, cfg.keys, Last(first), Last(rest));
        assert Last(first + rest) == Last(rest);
      } else {
        assert first + rest == first;
      }
    }
  }

  lemma {:induction false} ComponentTrace(w: World, cfg: Config, c: Component)
    requires DistinctKeys(w.replacements)
    ensures After(w, PlannedTrace(cfg, w.cwd, w.replacements, Nodes(c)), ComponentSpec(w, cfg, c))
    decreases c, 1
  {
    var r := w.replacements;
    var dir := w.cwd + [c.name];
    var rc := NodeReplacements(r, cfg.keys, c);
    var w1 := VisitSpec(w, cfg, c);
    VisitStep(w, cfg, c);
    NodeReplacementsKeys(r, cfg.keys, c);
    var rest := NodesAll(c.children);
    ChildrenTrace(w1, cfg, c.children);
    PlannedAbsorb(cfg, dir, r, c, rest);
    AfterTrans(w, NodeTrace(cfg, dir, rc, c), w1, PlannedTrace(cfg, dir, r, rest), ComponentSpec(w, cfg, c));
    assert Nodes(c)[0] == c && Nodes(c)[1..] == rest;
  }

  lemma {:induction false} ChildrenTrace(w: World, cfg: Config, cs: seq<Component>)
    requires DistinctKeys(w.replacements)
    ensures After(w, PlannedTrace(cfg, w.cwd, w.replacements, NodesAll(cs)), ChildrenSpec(w, cfg, cs))
    decreases cs, 0
  {
    var r := w.replacements;
    if cs == [] {
      assert w.trace + [] == w.trace;
    } else {
      var first, rest := Nodes(cs[0]), NodesAll(cs[1..]);
      var w1 := ComponentSpec(w, cfg, cs[0]);
      ComponentTrace(w, cfg, cs[0]);
      ComponentCwd(w, cfg, cs[0]);
      ComponentTable(w, cfg, cs[0]);
      NodeReplacementsKeys(r, cfg.keys, Last(first));
      ChildrenTrace(w1, cfg, cs[1..]);
      PlannedAbsorb(cfg, w1.cwd, r, Last(first), rest);
      PlannedAppend(cfg, w.cwd, r, first, rest);
      AfterTrans(w, PlannedTrace(cfg, w.cwd, r, first), w1, PlannedTrace(cfg, w1.cwd, r, rest), ChildrenSpec(w, cfg, cs));
    }
  }

  /** The operations of `generate` before the walk: remove an existing output directory, then make it. */
  function PrepTrace(d: Disk, out: Path): seq<Event>
  {
    (if Exists(d, out) then [Removed(out)] else []) + [MadeDir(out)]
  }

  /**
   * `generate` first goes to the output directory's parent, removes an existing
   * output directory with everything below it, makes it again and enters it;
   * the table is untouched.
   */
  lemma PrepareStep(w: World, outputDir: Path, outputDirName: string)
    ensures var out := outputDir + [outputDirName];
      var w' := PrepareOutput(w, outputDir, outputDirName);
      && w'.cwd == out
      && w'.replacements == w.replacements
      && After(w, PrepTrace(w.disk, out), w')
      && out in w'.disk.dirs
      && (Exists(w.disk, out) ==>
            && (forall p :: p in w'.disk.files ==> !Under(out, p))
            && (forall p :: p in w'.disk.dirs && Under(out, p) ==> p == out))
      && (!Exists(w.disk, out) ==> w'.disk == w.disk.(dirs := w.disk.dirs + {out}))
  {
    var out := outputDir + [outputDirName];
    var w1 := w.(cwd := outputDir);
    if Exists(w.disk, out) {
      var w2 := Do(w1, Removed(out));
      AfterDo(w1, Removed(out));
      AfterDo(w2, MadeDir(out));
      AfterTrans(w1, [Removed(out)], w2, [MadeDir(out)], Do(w2, MadeDir(out)));
    } else {
      AfterDo(w1, MadeDir(out));
    }
  }

  /**
   * A whole run of `generate`: it ends in the directory of the last component
   * visited, below the output directory, and its operations are the
   * preparation of the output directory followed by the planned operations of
   * every component of the tree, in visiting order.
   */
  lemma GenerateWalk(w: World, cfg: Config, tree: seq<Component>, outputDir: Path, outputDirName: string)
    requires DistinctKeys(w.replacements)
    ensures var out := outputDir + [outputDirName];
      var w' := GenerateSpec(w, cfg, tree, outputDir, outputDirName);
      && w'.cwd == out + NamesOf(NodesAll(tree))
      && After(w, PrepTrace(w.disk, out) + PlannedTrace(cfg, out, w.replacements, NodesAll(tree)), w')
      && (tree == [] ==> w'.replacements == w.replacements)
      && (tree != [] ==>
            && NodesAll(tree) != []
            && w'.replacements == NodeReplacements(w.replacements, cfg.keys, Last(NodesAll(tree))))
  {
    var out := outputDir + [outputDirName];
    var w1 := PrepareOutput(w, outputDir, outputDirName);
    PrepareStep(w, outputDir, outputDirName);
    ChildrenCwd(w1, cfg, tree);
    DescendNames(out, NodesAll(tree));
    ChildrenTrace(w1, cfg, tree);
    ChildrenTable(w1, cfg, tree);
    AfterTrans(w, PrepTrace(w.disk, out), w1, PlannedTrace(cfg, out, w.replacements, NodesAll(tree)),
               GenerateSpec(w, cfg, tree, outputDir, outputDirName));
  }

  /** The operations of two siblings: the first one's subtree, then the second's from where the first ended. */
  lemma TwoSiblings(w: World, cfg: Config, a: Component, b: Component)
    requires DistinctKeys(w.replacements)
    ensures ChildrenSpec(w, cfg, [a, b]).trace
         == w.trace + (PlannedTrace(cfg, w.cwd, w.replacements, Nodes(a))
                       + PlannedTrace(cfg, Descend(w.cwd, Nodes(a)), w.replacements, Nodes(b)))
  {
    ChildrenTrace(w, cfg, [a, b]);
    assert [a, b][1..] == [b] && [b][1..] == [];
    assert NodesAll([b]) == Nodes(b) + NodesAll([]);
    assert NodesAll([a, b]) == Nodes(a) + Nodes(b);
    PlannedAppend(cfg, w.cwd, w.replacements, Nodes(a), Nodes(b));
  }

  /**
   * Siblings nest: the directory made for the second of two siblings lies
   * inside the directory of the last component of the first one's subtree, not
   * beside the first sibling's directory.
   */
  lemma SiblingsNest(w: World, cfg: Config, a: Component, b: Component)
    requires DistinctKeys(w.replacements)
    ensures var t := ChildrenSpec(w, cfg, [a, b]).trace;
      && |w.trace| <= |t|
      && MadeDir(w.cwd + NamesOf(Nodes(a)) + [b.name]) in t[|w.trace|..]
      && (a.children == [] ==> MadeDir(w.cwd + [a.name, b.name]) in t[|w.trace|..])
  {
    var r := w.replacements;
    var t := ChildrenSpec(w, cfg, [a, b]).trace;
    var base := Descend(w.cwd, Nodes(a));
    var head := PlannedTrace(cfg, w.cwd, r, Nodes(a));
    var tail := PlannedTrace(cfg, base, r, Nodes(b));
    TwoSiblings(w, cfg, a, b);
    assert t[|w.trace|..] == head + tail;
    DescendNames(w.cwd, Nodes(a));
    assert tail[0] == MadeDir(base + [b.name]);
    assert (head + tail)[|head|] == tail[0];
    if a.children == [] {
      assert NamesOf(Nodes(a)) == [a.name];
      assert w.cwd + [a.name] + [b.name] == w.cwd + [a.name, b.name];
    }
  }
}
