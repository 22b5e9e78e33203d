/**
 * The `Generator` class: the replacement table, the process's current
 * directory and the disk are fields that its methods update step by step,
 * and each method is proved to have exactly the effect of the matching
 * function of `Model`.
 */
module GeneratorClass {
  import opened Wrappers
  import opened Text
  import opened OrderedMap
  import opened Substitution
  import opened Bindings
  import opened Model

  class Generator {
    const componentTree: seq<Component>
    const typesMap: GeneratedType -> TypeInfo
    const templates: string -> string
    const keys: Placeholders
    const outputDirName: string
    const rootDir: Path
    const outputDir: Path

    /** The shared replacement table, rewritten for every component. */
    var replacements: Entries
    /** The process's current directory (`process.chdir`). */
    var cwd: Path
    var dirs: set<Path>
    var files: map<Path, string>
    /** The disk operations performed so far, in order. */
    ghost var trace: seq<Event>

    function Cfg(): Config
    {
      Config(typesMap, templates, keys)
    }

    ghost function Current(): World
      reads this
    {
      World(replacements, cwd, Disk(dirs, files), trace)
    }

    /**
     * The directory of the running script, the initial table `REPLACEMENTS_MAP`,
     * the starting directory and the disk are the process's environment.
     */
    constructor (types: GeneratedType -> TypeInfo, templateTexts: string -> string,
                 placeholders: Placeholders, scriptDir: Path, initial: Entries, startDir: Path, disk: Disk)
      ensures componentTree == ShippedTree() && typesMap == types && templates == templateTexts && keys == placeholders
      ensures outputDirName == "output" && rootDir == scriptDir && outputDir == scriptDir
      ensures Current() == World(initial, startDir, disk, [])
    {
      componentTree := ShippedTree();
      typesMap := types;
      templates := templateTexts;
      keys := placeholders;
      outputDirName := "output";
      rootDir := scriptDir;
      outputDir := scriptDir;
      replacements := initial;
      cwd := startDir;
      dirs := disk.dirs;
      files := disk.files;
      trace := [];
    }

    /** `generate`. */
    method Generate()
      modifies this
      ensures Current() == GenerateSpec(old(Current()), Cfg(), componentTree, outputDir, outputDirName)
    {
      cwd := outputDir;
      var out := cwd + [outputDirName];
      if out in dirs || out in files {
        RemoveTree(out);
      }
      MakeDir(out);
      cwd := out;
      assert Current() == PrepareOutput(old(Current()), outputDir, outputDirName);
      DealWithComponents(componentTree);
    }

    /** `dealWithComponent`. */
    method DealWithComponent(comp: Component)
      modifies this
      ensures Current() == ComponentSpec(old(Current()), Cfg(), comp)
      decreases comp, 1
    {
      replacements := Set(replacements, keys.dashName, comp.name);
      replacements := Set(replacements, keys.camelName, ReplaceAll(comp.name, "-", ""));
      replacements := Set(replacements, keys.camelNameFirstUp, ReplaceAll(comp.name, "-", ""));
      replacements := Set(replacements, keys.inputs, GenerateInputs(comp.inputList));
      replacements := Set(replacements, keys.outputs, GenerateOutputs(comp.outputList));

      GenerateFiles(comp.name);
      DealWithStores(comp.retrievesDataFrom);
      DealWithComponents(comp.children);
    }

    /** `comp.retrievesDataFrom.forEach(store => this.dealWithStore(store))`. */
    method DealWithStores(stores: seq<Store>)
      modifies this
      ensures Current() == StoresSpec(old(Current()), Cfg(), stores)
    {
      ghost var w0, cfg := Current(), Cfg();
      for i := 0 to |stores|
        invariant Current() == StoresSpec(w0, cfg, stores[..i])
      {
        DealWithStore(stores[i]);
        StoresPrefix(w0, cfg, stores, i);
      }
      assert stores[..|stores|] == stores;
    }

    /** `components.forEach(comp => this.dealWithComponent(comp))`, for the tree and for each component's children. */
    method DealWithComponents(children: seq<Component>)
      modifies this
      ensures Current() == ChildrenSpec(old(Current()), Cfg(), children)
      decreases children, 0
    {
      ghost var w0, cfg := Current(), Cfg();
      for i := 0 to |children|
        invariant Current() == ChildrenSpec(w0, cfg, children[..i])
      {
        DealWithComponent(children[i]);
        ChildrenPrefix(w0, cfg, children, i);
      }
      assert children[..|children|] == children;
    }

    /** `dealWithStore`. */
    method DealWithStore(store: Store)
      modifies this
      ensures Current() == StoreSpec(old(Current()), Cfg(), store)
    {
      GenerateFileAndReplace(store.name, typesMap(STORE));
    }

    /** `generateFiles`. */
    method GenerateFiles(name: string)
      modifies this
      ensures Current() == GenerateFilesSpec(old(Current()), Cfg(), name)
    {
      MakeDir(cwd + [name]);
      cwd := cwd + [name];
      GenerateFileAndReplace(name, typesMap(COMPONENT));
      GenerateFileAndReplace(name, typesMap(HTML));
      GenerateFileAndReplace(name, typesMap(MODULE));
      GenerateFileAndReplace(name, typesMap(SASS));
      GenerateFileAndReplace(name, typesMap(SPEC));
    }

    /** `generateFileAndReplace`. */
    method GenerateFileAndReplace(name: string, generatedType: TypeInfo)
      modifies this
      ensures Current() == WriteFileSpec(old(Current()), Cfg(), name, generatedType)
    {
      var content := templates(generatedType.templateFile);
      var replacedContent := ReplaceTemplateWithName(content, replacements);
      WriteFile(cwd + [name + generatedType.fileLabelAdditional], replacedContent);
    }

    /** `rimraf.sync`: remove a directory or file and everything below it. */
    method RemoveTree(p: Path)
      modifies this
      ensures Current() == Do(old(Current()), Removed(p))
    {
      dirs := set q | q in dirs && !Under(p, q);
      files := map q | q in files && !Under(p, q) :: files[q];
      trace := trace + [Removed(p)];
    }

    /** `fs.mkdirSync`. */
    method MakeDir(p: Path)
      modifies this
      ensures Current() == Do(old(Current()), MadeDir(p))
    {
      dirs := dirs + {p};
      trace := trace + [MadeDir(p)];
    }

    /** `fs.writeFileSync`. */
    method WriteFile(p: Path, content: string)
      modifies this
      ensures Current() == Do(old(Current()), Wrote(p, content))
    {
      files := files[p := content];
      trace := trace + [Wrote(p, content)];
    }
  }
}
