/**
 * The generator's data model and the effect of each of its steps on an
 * abstract process state: the replacement table, the current directory, the
 * disk, and the ordered record of disk operations performed so far.
 */
module Model {
  import opened Wrappers
  import opened Text
  import opened OrderedMap
  import opened Substitution
  import opened Bindings

  /** `IStore`; its capability flags are never read by the generator and are not modelled. */
  datatype Store = Store(name: string)

  /** `IComponent`; an absent `children` or `retrievesDataFrom` is the empty sequence. */
  datatype Component = Component(
    name: string,
    inputList: Option<seq<string>>,
    outputList: Option<seq<string>>,
    children: seq<Component>,
    retrievesDataFrom: seq<Store>)

  /** The preview of the shipped tree: one input, `connection`, and one output, `onAccountClick`. */
  function Preview(): Component
  {
    Component("connection-preview", Some(["connection"]), Some(["onAccountClick"]), [], [])
  }

  /** The list of the shipped tree, holding the preview. */
  function ConnectionList(): Component
  {
    Component("connection-list", None, None, [Preview()], [])
  }

  /** The container of the shipped tree: it holds the list and reads the `connection` store. */
  function Container(): Component
  {
    Component("connection-list-container", None, None, [ConnectionList()], [Store("connection")])
  }

  /** The component tree the generator ships with: a container holding a list holding a preview. */
  function ShippedTree(): seq<Component>
  {
    [Container()]
  }

  /** The six kinds of generated file. */
  datatype GeneratedType = COMPONENT | HTML | MODULE | SASS | SPEC | STORE

  /** `IGeneratedTypeInfos`: a template file and the suffix added to the output file name. */
  datatype TypeInfo = TypeInfo(name: string, templateFile: string, fileLabelAdditional: string)

  /** The placeholder tokens `DASH_NAME`, `CAMEL_NAME`, `CAMEL_NAME_FIRST_UP`, `INPUTS`, `OUTPUTS`. */
  datatype Placeholders = Placeholders(
    dashName: string, camelName: string, camelNameFirstUp: string, inputs: string, outputs: string)

  /**
   * What the generator reads but does not compute: the type registry
   * (`TYPES_MAP`, total over the six kinds), the text of each template file
   * under the templates directory, and the placeholder tokens.
   */
  datatype Config = Config(
    typesMap: GeneratedType -> TypeInfo,
    templates: string -> string,
    keys: Placeholders)

  /** An absolute path, one directory or file name per element. */
  type Path = seq<string>

  datatype Disk = Disk(dirs: set<Path>, files: map<Path, string>)

  /** One operation on the disk. */
  datatype Event = Removed(path: Path) | MadeDir(path: Path) | Wrote(path: Path, content: string)

  /** The process state the generator works on. */
  datatype World = World(replacements: Entries, cwd: Path, disk: Disk, trace: seq<Event>)

  /** `p` is `root` or lies below it. */
  predicate Under(root: Path, p: Path)
  {
    |root| <= |p| && p[..|root|] == root
  }

  /** `fs.existsSync`. */
  predicate Exists(d: Disk, p: Path)
  {
    p in d.dirs || p in d.files
  }

  /** The effect of one operation on the disk. */
  function Apply(d: Disk, e: Event): Disk
  {
    match e
    case Removed(p) =>
      Disk(set q | q in d.dirs && !Under(p, q), map q | q in d.files && !Under(p, q) :: d.files[q])
    case MadeDir(p) => d.(dirs := d.dirs + {p})
    case Wrote(p, content) => d.(files := d.files[p := content])
  }

  /** The disk after a sequence of operations, first operation first. */
  function Replay(d: Disk, es: seq<Event>): Disk
    decreases |es|
  {
    if es == [] then d else Replay(Apply(d, es[0]), es[1..])
  }

  /** Perform one disk operation and record it. */
  function Do(w: World, e: Event): World
  {
    w.(disk := Apply(w.disk, e), trace := w.trace + [e])
  }

  /** The five `set` calls of `dealWithComponent`, in order. */
  function NodeReplacements(r: Entries, keys: Placeholders, c: Component): Entries
  {
    var r1 := Set(r, keys.dashName, c.name);
    var r2 := Set(r1, keys.camelName, ReplaceAll(c.name, "-", ""));
    var r3 := Set(r2, keys.camelNameFirstUp, ReplaceAll(c.name, "-", ""));
    var r4 := Set(r3, keys.inputs, GenerateInputs(c.inputList));
    Set(r4, keys.outputs, GenerateOutputs(c.outputList))
  }

  /** The file `generateFileAndReplace(name, info)` writes in directory `dir` with table `r`. */
  function FileEvent(cfg: Config, dir: Path, r: Entries, name: string, info: TypeInfo): Event
  {
    Wrote(dir + [name + info.fileLabelAdditional], Substitute(cfg.templates(info.templateFile), r))
  }

  /** `generateFileAndReplace`: the file is written in the current directory with the current table. */
  function WriteFileSpec(w: World, cfg: Config, name: string, info: TypeInfo): World
  {
    Do(w, FileEvent(cfg, w.cwd, w.replacements, name, info))
  }

  /** `generateFiles`: make the directory, enter it, write the five files in order. */
  function GenerateFilesSpec(w: World, cfg: Config, name: string): World
  {
    var w1 := Do(w, MadeDir(w.cwd + [name])).(cwd := w.cwd + [name]);
    var w2 := WriteFileSpec(w1, cfg, name, cfg.typesMap(COMPONENT));
    var w3 := WriteFileSpec(w2, cfg, name, cfg.typesMap(HTML));
    var w4 := WriteFileSpec(w3, cfg, name, cfg.typesMap(MODULE));
    var w5 := WriteFileSpec(w4, cfg, name, cfg.typesMap(SASS));
    WriteFileSpec(w5, cfg, name, cfg.typesMap(SPEC))
  }

  /** `dealWithStore`. */
  function StoreSpec(w: World, cfg: Config, store: Store): World
  {
    WriteFileSpec(w, cfg, store.name, cfg.typesMap(STORE))
  }

  /** `retrievesDataFrom.forEach(dealWithStore)`. */
  function StoresSpec(w: World, cfg: Config, stores: seq<Store>): World
    decreases |stores|
  {
    if stores == [] then w else StoresSpec(StoreSpec(w, cfg, stores[0]), cfg, stores[1..])
  }

  /** A component's own work: set its replacements, write its five files, then its store files. */
  function VisitSpec(w: World, cfg: Config, c: Component): World
  {
    var w1 := w.(replacements := NodeReplacements(w.replacements, cfg.keys, c));
    var w2 := GenerateFilesSpec(w1, cfg, c.name);
    StoresSpec(w2, cfg, c.retrievesDataFrom)
  }

  /** `dealWithComponent`: the component's own work, then its children in order. */
  function ComponentSpec(w: World, cfg: Config, c: Component): World
    decreases c, 1
  {
    ChildrenSpec(VisitSpec(w, cfg, c), cfg, c.children)
  }

  /** `children.forEach(dealWithComponent)`. */
  function ChildrenSpec(w: World, cfg: Config, cs: seq<Component>): World
    decreases cs, 0
  {
    if cs == [] then w else ChildrenSpec(ComponentSpec(w, cfg, cs[0]), cfg, cs[1..])
  }

  /** The first half of `generate`: clear and recreate the output directory and enter it. */
  function PrepareOutput(w: World, outputDir: Path, outputDirName: string): World
  {
    var out := outputDir + [outputDirName];
    var w1 := w.(cwd := outputDir);
    var w2 := if Exists(w1.disk, out) then Do(w1, Removed(out)) else w1;
    Do(w2, MadeDir(out)).(cwd := out)
  }

  /** `generate`: prepare the output directory, then visit the top-level components in order. */
  function GenerateSpec(w: World, cfg: Config, tree: seq<Component>, outputDir: Path, outputDirName: string): World
  {
    ChildrenSpec(PrepareOutput(w, outputDir, outputDirName), cfg, tree)
  }

  /** One more store at the end of the list is one more store file after the others. */
  lemma {:induction false} StoresSnoc(w: World, cfg: Config, stores: seq<Store>, store: Store)
    ensures StoresSpec(w, cfg, stores + [store]) == StoreSpec(StoresSpec(w, cfg, stores), cfg, store)
    decreases |stores|
  {
    if stores == [] {
      assert [] + [store] == [store];
    } else {
      assert (stores + [store])[1..] == stores[1..] + [store];
      StoresSnoc(StoreSpec(w, cfg, stores[0]), cfg, stores[1..], store);
    }
  }
  /** Handling the first `i + 1` stores is handling the first `i`, then store `i`. */
  lemma StoresPrefix(w: World, cfg: Config, stores: seq<Store>, i: nat)
    requires i < |stores|
    ensures StoresSpec(w, cfg, stores[..i + 1]) == StoreSpec(StoresSpec(w, cfg, stores[..i]), cfg, stores[i])
  {
    assert stores[..i + 1] == stores[..i] + [stores[i]];
    StoresSnoc(w, cfg, stores[..i], stores[i]);
  }


  /** One more child at the end of the list is one more visit after the others. */
  lemma {:induction false} ChildrenSnoc(w: World, cfg: Config, cs: seq<Component>, c: Component)
    ensures ChildrenSpec(w, cfg, cs + [c]) == ComponentSpec(ChildrenSpec(w, cfg, cs), cfg, c)
    decreases |cs|
  {
    if cs == [] {
      assert [] + [c] == [c];
    } else {
      assert (cs + [c])[1..] == cs[1..] + [c];
      ChildrenSnoc(ComponentSpec(w, cfg, cs[0]), cfg, cs[1..], c);
    }
  }
  /** The walk over the first `i + 1` children is the walk over the first `i`, then child `i`. */
  lemma ChildrenPrefix(w: World, cfg: Config, cs: seq<Component>, i: nat)
    requires i < |cs|
    ensures ChildrenSpec(w, cfg, cs[..i + 1]) == ComponentSpec(ChildrenSpec(w, cfg, cs[..i]), cfg, cs[i])
  {
    assert cs[..i + 1] == cs[..i] + [cs[i]];
    ChildrenSnoc(w, cfg, cs[..i], cs[i]);
  }

}
