# ngbooster generator, modelled in Dafny

ngbooster scaffolds Angular components. Its generator (`src/generator.ts`)
walks a tree of component descriptors. For each component it fills a shared,
insertion-ordered placeholder table, makes a directory, enters it, writes five
files (component, HTML, module, SASS, spec) from templates with the
placeholders substituted, and then writes one file per store the component
reads from. Then it walks the component's children.

This project models that generator and proves what it does:

- `Text`: the literal, global, left-to-right `replaceAll` on strings, and when
  it removes every occurrence of a key.
- `OrderedMap`: a JavaScript `Map<string, string>` as a sequence of pairs.
  `Set` overwrites an existing key in place or appends a new key; `Get`
  returns the value or nothing.
- `Substitution`: `replaceTemplateWithName`, a left fold of `replaceAll` over
  the table in iteration order. It has a loop method and the fold function
  that specifies it.
- `Bindings`: `generateBindings`, `generateInputs`, `generateOutputs`.
- `Model`: the data model (`Component`, `Store`, `GeneratedType`, `TypeInfo`),
  the shipped component tree, and one function per step of the generator. Each
  step function maps a `World` to a `World`. A `World` holds the replacement
  table, the current directory, a disk of directories and files, and the
  ordered record of disk operations.
- `GeneratorClass`: the `Generator` class. Its fields are the table, the
  current directory and the disk, and its methods update them step by step.
  Each method is proved to have exactly the effect of its step function.
- `Walk`: what a whole run does, stated without the recursion. The operations
  are those of each component in pre-order, each in its own directory. Each
  component's directory is made inside the previous component's directory,
  because the walk enters directories and never leaves them. Only the last
  component's placeholders remain in the table afterwards.
- `Shipped`: the run on the shipped tree. It ends in
  `output/connection-list-container/connection-list/connection-preview`. Each
  of the three nested directories gets five files, and the single store file,
  `connection` followed by the store kind's suffix, is written in the
  container's directory only.
- `Rerun`: running the generator a second time, straight after the first,
  leaves the same disk, directory and table. The second run clears the output
  directory, which takes the disk back to what the first run's preparation
  left, and then repeats the walk exactly.

Two behaviours of the code that a reader might not expect:

- The working directory is never restored after a component. Later siblings
  are therefore nested inside earlier ones, and a run ends in the directory of
  the last component visited.
- Both camel-case placeholders are the name with every `-` removed. There is
  no change of case.

## Model

| member | source | states |
|---|---|---|
| Text.Without | src/generator.ts:86-87 | the camel placeholders' value: the name with every `-` dropped; no `-` is left and the text does not grow |
| Text.ReplaceCharByNothing | src/generator.ts:86-87 | `name.replaceAll('-', '')` is exactly the name with every `-` dropped and nothing else changed |
| Text.ReplaceAllAbsent | src/generator.ts:127 | replacing a key that does not occur in the text leaves the text unchanged |
| Text.ReplaceAllLeavesNoKey | src/generator.ts:127 | after replacing a non-empty key, no occurrence of it is left, provided the value shares no character with the key and is non-empty or the key is one character |
| Text.ReplaceAllKeepsAbsent | src/generator.ts:126-128 | replacing one key cannot create an occurrence of another key that was absent, under the same condition on the value |
| Text.ReplaceAllCanLeaveKey | src/generator.ts:127 | counterexample: a value that does not contain the key can still leave an occurrence of it (`"abb"` with `ab` replaced by `a` gives `"ab"`) |
| Text.ReplaceAll | src/generator.ts:86-87 | no contract; definition: scan from the left, replace each occurrence of the key by the value and continue after it; an empty key changes nothing (its properties are the `Text` lemmas above and below) |
| OrderedMap.Get | src/generator.ts:85-89 | the lookup used to state what `Map.set` does: it finds nothing exactly when the key is not in the table |
| OrderedMap.GetAt | src/generator.ts:85-89 | the lookup used to state what `Map.set` does: in a table with distinct keys it returns the value stored at the key's position |
| OrderedMap.Set | src/generator.ts:85-89 | no contract; definition: overwrite the value in place when the key is present, otherwise append the pair (its effect is `OrderedMap.SetSemantics`) |
| OrderedMap.SetKeys | src/generator.ts:85-89 | `Map.set` keeps the key order, and appends the key at the end only when it is new |
| OrderedMap.SetKeepsDistinct | src/generator.ts:85-89 | `Map.set` keeps the keys distinct |
| OrderedMap.SetGetSame | src/generator.ts:85-89 | after `set(k, v)`, `get(k)` is `v` |
| OrderedMap.SetGetOther | src/generator.ts:85-89 | after `set(k, v)`, every other key has the value it had before |
| OrderedMap.SetSemantics | src/generator.ts:85-89 | the whole effect of `Map.set`: key order kept or key appended, keys distinct, new value under `k`, all other values unchanged |
| OrderedMap.Extensionality | src/generator.ts:61 | two tables with the same keys in the same order and the same lookups are the same table |
| Substitution.ReplaceTemplateWithName | src/generator.ts:122-131 | the loop's result is the fold of `replaceAll` over the entries in iteration order, and the template itself when the table is empty; the table is a value and is not changed |
| Substitution.Substitute | src/generator.ts:126-128 | no contract; definition: `replaceAll` of each entry in turn, first entry first (the specification of `ReplaceTemplateWithName`; its properties are the lemmas below) |
| Substitution.SubstituteSnoc | src/generator.ts:126-128 | one more entry at the end of the table is one more `replaceAll` applied last |
| Substitution.SubstituteAppend | src/generator.ts:126-128 | substituting with two tables in a row is substituting with their concatenation |
| Substitution.SubstituteWithoutKeys | src/generator.ts:122-131 | a template that contains none of the keys comes back unchanged; in particular an absent key is a no-op |
| Substitution.SubstituteKeepsAbsent | src/generator.ts:122-131 | when every value is foreign to a key that is absent from the template, the key is still absent from the result |
| Substitution.SubstituteLeavesNoKey | src/generator.ts:122-131 | when the key's own value and every later value are foreign to a key of the table, that key does not occur in the result; earlier entries may be anything |
| Bindings.Entry | src/generator.ts:148 | no contract; definition: `'` + element + `': '` + prefix + `eiCamelFirstUp'` (its text is `Bindings.EntryText`) |
| Bindings.Join | src/generator.ts:149 | no contract; definition: `Array.prototype.join`, the parts separated by the separator (its property is `Bindings.JoinSnoc`) |
| Bindings.Entries | src/generator.ts:147-148 | `list.map(...)`: one entry per element, in order, each built from its element |
| Bindings.GenerateBindings | src/generator.ts:141-150 | the result is empty exactly when the list is absent or empty |
| Bindings.EntryText | src/generator.ts:147-148 | an entry is `'x': '` + prefix + `eiCamelFirstUp'`; the tail after the element is the same fixed literal for every element |
| Bindings.JoinSnoc | src/generator.ts:149 | joining one more part adds the separator and that part at the end |
| Bindings.BindingsSingle | src/generator.ts:147-149 | a one-element list gives exactly that element's entry, with no comma |
| Bindings.BindingsSnoc | src/generator.ts:147-149 | one more element at the end of the list adds a comma and its entry at the end of the text |
| Bindings.InputsText | src/generator.ts:133-135 | inputs use the marker `<`: empty for an absent or empty list, `'x': '<eiCamelFirstUp'` per element, joined by commas |
| Bindings.OutputsText | src/generator.ts:137-139 | outputs use the marker `&`, in the same shape |
| Bindings.GenerateInputs | src/generator.ts:133-135 | no contract; definition: `generateBindings` with the marker `<` (its text is `Bindings.InputsText`) |
| Bindings.GenerateOutputs | src/generator.ts:137-139 | no contract; definition: `generateBindings` with the marker `&` (its text is `Bindings.OutputsText`) |
| Model.ShippedTree | src/generator.ts:38-53 | no contract; definition: the shipped tree `[Container()]`: a container (`Model.Container`) reading the `connection` store, holding a list (`Model.ConnectionList`), holding a preview (`Model.Preview`) with input `connection` and output `onAccountClick` (its walk is `Shipped.ShippedNodes`) |
| Model.Exists | src/generator.ts:73 | no contract; definition: `fs.existsSync`: the path is a directory or a file of the disk |
| Model.Apply | src/generator.ts:74-118 | no contract; definition: the disk effect of one operation: `rimraf.sync` drops every directory and file at or below the path (`Model.Under`), `fs.mkdirSync` adds the directory, `fs.writeFileSync` stores the content under the path (its removal effect is used by `Walk.PrepareStep` and the `Rerun` lemmas) |
| Model.Replay | src/generator.ts:71-120 | no contract; definition: the operations applied in order, first operation first (its property is `Walk.ReplayAppend`) |
| Model.Do | src/generator.ts:74-118 | no contract; definition: perform one operation on the disk and record it at the end of the trace (its property is `Walk.AfterDo`) |
| Model.NodeReplacements | src/generator.ts:85-89 | no contract; definition: the five `set` calls in order (its effect is `Walk.NodeReplacementsEffect`) |
| Model.FileEvent | src/generator.ts:114-120 | no contract; definition: the write of `name + suffix` in a directory, filled from the kind's template with a table |
| Model.WriteFileSpec | src/generator.ts:114-120 | no contract; definition: `FileEvent` in the current directory with the current table, performed and recorded |
| Model.GenerateFilesSpec | src/generator.ts:104-112 | no contract; definition: make `cwd/name`, enter it, five `WriteFileSpec` in the order COMPONENT, HTML, MODULE, SASS, SPEC (its effect is `Walk.GenerateFilesStep`) |
| Model.StoreSpec | src/generator.ts:100-102 | no contract; definition: one `WriteFileSpec` with the store kind |
| Model.StoresSpec | src/generator.ts:92-94 | no contract; definition: `StoreSpec` for each store in order (its effect is `Walk.StoresStep`) |
| Model.VisitSpec | src/generator.ts:85-94 | no contract; definition: `NodeReplacements`, then `GenerateFilesSpec`, then `StoresSpec` (its effect is `Walk.VisitStep`) |
| Model.ComponentSpec | src/generator.ts:83-98 | no contract; definition: `VisitSpec`, then `ChildrenSpec` of the children (its effect is `Walk.ComponentTrace`) |
| Model.ChildrenSpec | src/generator.ts:95-97 | no contract; definition: `ComponentSpec` for each component in order, each from the state the previous one left (its effect is `Walk.ChildrenTrace`) |
| Model.PrepareOutput | src/generator.ts:72-77 | no contract; definition: go to the parent, remove `output` if it exists, make it, enter it (its effect is `Walk.PrepareStep`) |
| Model.GenerateSpec | src/generator.ts:71-81 | no contract; definition: `PrepareOutput`, then `ChildrenSpec` of the tree (its effect is `Walk.GenerateWalk`, and `Rerun.GenerateTwice` shows it idempotent) |
| Model.StoresSnoc | src/generator.ts:92-94 | one more store at the end of the list is one more store file written after the others |
| Model.ChildrenSnoc | src/generator.ts:95-97 | one more child at the end of the list is one more component walk after the others |
| Model.StoresPrefix | src/generator.ts:93 | the first `i + 1` stores are handled as the first `i`, then store `i` |
| Model.ChildrenPrefix | src/generator.ts:96 | the first `i + 1` children are walked as the first `i`, then child `i` |
| GeneratorClass.Generator.constructor | src/generator.ts:38-69 | the shipped tree, output directory name `output`, output directory equal to the script's directory, the initial table, and no operations yet |
| GeneratorClass.Generator.Generate | src/generator.ts:71-81 | go to the output directory's parent, remove an existing `output` with everything below it, make it, enter it, then walk the top-level components in order |
| GeneratorClass.Generator.DealWithComponent | src/generator.ts:83-98 | set the five placeholders, make and fill the component's directory, write the store files, then walk the children |
| GeneratorClass.Generator.DealWithStores | src/generator.ts:92-94 | the store files, one per store, in declared order |
| GeneratorClass.Generator.DealWithComponents | src/generator.ts:95-97 | the components walked in order, each from the state the previous one left |
| GeneratorClass.Generator.DealWithStore | src/generator.ts:100-102 | one file named after the store, with the store kind's template and suffix |
| GeneratorClass.Generator.GenerateFiles | src/generator.ts:104-112 | make the directory, enter it, write the five kinds of file in order |
| GeneratorClass.Generator.GenerateFileAndReplace | src/generator.ts:114-120 | write `name + suffix` in the current directory, with the kind's template substituted by the current table; the table is unchanged |
| GeneratorClass.Generator.RemoveTree | src/generator.ts:74 | every directory and file at or below the path is gone and nothing else changes |
| GeneratorClass.Generator.MakeDir | src/generator.ts:105 | the directory is added and nothing else changes |
| GeneratorClass.Generator.WriteFile | src/generator.ts:118 | the file holds the content and nothing else changes |
| Walk.ReplayAppend | src/generator.ts:71-81 | applying two runs of operations in a row is applying their concatenation |
| Walk.AfterTrans | src/generator.ts:71-81 | the records and disk effects of consecutive steps compose |
| Walk.AfterDo | src/generator.ts:105 | one operation is recorded and applied to the disk |
| Walk.FiveFiles | src/generator.ts:107-111 | no contract; definition: the five writes of `name + suffix` in the order COMPONENT, HTML, MODULE, SASS, SPEC |
| Walk.GenerateFilesStep | src/generator.ts:104-119 | `generateFiles(name)` makes `cwd/name`, enters it, and writes exactly five files in the order COMPONENT, HTML, MODULE, SASS, SPEC, each named `name + suffix` and filled from its kind's template with the current table; the table is unchanged |
| Walk.StoresStep | src/generator.ts:92-102 | the store files go into the current directory, one per store, in declared order, each named `store + suffix` and filled with the current table; directory and table are unchanged |
| Walk.VisitStep | src/generator.ts:83-94 | a component's own work: the five placeholders set, its directory entered, its five files and then its store files written, before any child |
| Walk.WithPlaceholdersTwice | src/generator.ts:85-89 | setting the five placeholders a second time does not move any key |
| Walk.NodeReplacementsKeys | src/generator.ts:85-89 | after the five `set` calls the keys stay distinct; the existing keys keep their order and the missing placeholders are appended |
| Walk.NodeReplacementsGet | src/generator.ts:85-89 | after the five `set` calls: the dash placeholder is the name, both camel placeholders are the name without `-`, inputs and outputs are the binding texts, every other key has its old value |
| Walk.NodeReplacementsEffect | src/generator.ts:85-89 | the whole effect of the five `set` calls, for every key at once |
| Walk.NodeReplacementsAbsorb | src/generator.ts:85-89 | setting another component's placeholders over a component's gives the table that component would get from the start |
| Walk.PlannedAbsorb | src/generator.ts:85-97 | earlier components' placeholders do not affect the files of the components visited after them |
| Walk.DescendAppend | src/generator.ts:105-106 | entering the directories of two runs of components in a row is entering those of their concatenation |
| Walk.PlannedAppend | src/generator.ts:95-97 | visiting two runs of components is visiting the first, then the second from the directory the first left |
| Walk.DescendNames | src/generator.ts:105-106 | entering the components' directories one inside the other appends their names to the path |
| Walk.VisitCwd | src/generator.ts:105-106 | a component's own work leaves the process in its new directory |
| Walk.ComponentCwd | src/generator.ts:83-106 | walking a component never leaves a directory: it ends in the directory of the last component of its subtree, nested below all earlier ones |
| Walk.ChildrenCwd | src/generator.ts:95-106 | walking siblings nests each sibling's directory inside the previous sibling's subtree |
| Walk.VisitTable | src/generator.ts:85-89 | a component's own work leaves its placeholders in the table |
| Walk.NodesAllEmpty | src/generator.ts:95-97 | a list of components has no visits exactly when it is empty |
| Walk.ComponentTable | src/generator.ts:83-98 | after walking a component, the table holds the placeholders of the last component visited |
| Walk.ChildrenTable | src/generator.ts:95-97 | after walking siblings, the table holds the placeholders of the last component visited, or is unchanged if there are none |
| Walk.ComponentTrace | src/generator.ts:83-98 | a component's operations are its own directory and files followed by those of its subtree in pre-order, each in the directory the walk has reached |
| Walk.ChildrenTrace | src/generator.ts:95-97 | the operations of siblings are those of each sibling's subtree, in order |
| Walk.TwoSiblings | src/generator.ts:95-97 | the operations of two siblings are the first one's subtree, then the second one's started from the directory where the first ended |
| Walk.SiblingsNest | src/generator.ts:95-106 | the second sibling's directory is made inside the directory of the last component of the first sibling's subtree; for a first sibling without children it is `cwd/first/second` |
| Walk.PrepareStep | src/generator.ts:71-77 | `output` is removed with everything below it if it exists, made again, and entered; without a previous `output` the only change is the new directory |
| Walk.GenerateWalk | src/generator.ts:71-81 | a whole run: preparation, then every component's operations in pre-order; it ends in the last component's directory and with its placeholders |
| Shipped.ShippedNodes | src/generator.ts:38-53 | the shipped tree is visited container, list, preview |
| Shipped.NodeTraceNoStores | src/generator.ts:91-94 | a component without stores makes its directory and writes its five files only |
| Shipped.NodeTraceOneStore | src/generator.ts:91-94 | a component with one store writes that store's file after its five files |
| Shipped.PlannedThree | src/generator.ts:95-106 | three components visited in a row get three directories, each inside the one before |
| Shipped.LinePlanned | src/generator.ts:83-112 | the operations of three components visited in a row, one store in the first: a directory and five files each, nested, and the store file after the first component's five files |
| Shipped.LineRun | src/generator.ts:71-112 | a run over a tree whose walk is three components, with one store in the first: the exact nineteen operations after preparation and the final directory |
| Shipped.ShippedRun | src/generator.ts:38-81 | the shipped run ends in `output/connection-list-container/connection-list/connection-preview`; each of the three nested directories gets five files; the `connection` store file is written in the container's directory only |
| Rerun.PlannedInside | src/generator.ts:83-112 | every operation of the walk after preparation is made at or below the output directory, and none removes anything |
| Rerun.ApplyThenRemove | src/generator.ts:74 | removing a directory undoes a directory made or a file written below it |
| Rerun.ReplayThenRemove | src/generator.ts:74 | removing a directory undoes any sequence of operations below it that removes nothing |
| Rerun.RemoveNothing | src/generator.ts:74 | removing a path under which nothing lies changes nothing |
| Rerun.ReplayKeepsDirs | src/generator.ts:105 | operations that remove nothing keep every directory |
| Rerun.GenerateKeys | src/generator.ts:85-89 | a run keeps the table's keys distinct |
| Rerun.SecondPrepare | src/generator.ts:72-77 | a second run finds `output` and clears it, which returns the disk to what the first run's preparation made |
| Rerun.GenerateTwice | src/generator.ts:71-81 | running `generate` again right after a run leaves the same disk, the same directory and the same table, unless the disk held entries below `output` without `output` itself |

## Left out

- Disk and process access: `fs.readFileSync`, `fs.writeFileSync`, `fs.mkdirSync`, `fs.existsSync`, `rimraf.sync`, `process.chdir` and `require.main.filename` are not called. They become the fields of an abstract state: the current directory, a set of directories and a map from file paths to contents. The script's directory, the starting directory and the starting disk are constructor parameters.
- `console.log` (src/generator.ts:84) has no effect on the modelled state and is left out.
- The contents of `REPLACEMENTS_MAP` and `TYPES_MAP` are defined in files that are not part of this model. The initial table, the five placeholder tokens and the type registry (template file and suffix for each of the six kinds) are parameters. The registry is a total function, so a `Map.get` that finds nothing is not modelled.
- `StringHelper.replaceAll` is in a file that is not part of this model. `Text.ReplaceAll` assumes it replaces literally, globally, without overlap, from left to right, and that an empty key changes nothing.
- Template texts are parameters: a function from template file name to text. The path `rootDir + '/templates/' + file` is not built.
- The store flags `canGet`, `canPut`, `canPatch` and `canDelete` are never read by the generator. They are not part of `Store`.
- Failure paths are not modelled: a missing template, `mkdirSync` on an existing directory, a write error. They are runtime exceptions of the I/O layer.
- The entry line `new Generator().generate()` (src/generator.ts:153) is not modelled as code. `Shipped.ShippedRun` states its effect.
- A name is one path element. A component name containing `/` is not split into several directories.
- An absent `children` or `retrievesDataFrom` is the empty sequence. The source treats `null` and `[]` alike there. An absent `inputList` or `outputList` is `None`.
- Both `forEach` loops over the children (the tree in `generate` and the children in `dealWithComponent`) are one method, `DealWithComponents`. The store loop is `DealWithStores`.
- Text.ReplaceAllLeavesNoKey: does not promise that no occurrence is left for every value that merely does not contain the key, because that is false (`Text.ReplaceAllCanLeaveKey`). The value must share no character with the key and be non-empty, unless the key is one character.
- Walk.NodeReplacementsGet: assumes the table has distinct keys, as every JavaScript `Map` does. If two placeholder tokens were equal, the later `set` would win, and the lemma says so through the order of its cases.
- Substitution.SubstituteLeavesNoKey: its condition on entry `j` and on the entries after it (their values share no character with key `j`, and are non-empty unless that key is one character) is needed: a later empty value can delete a token and join its neighbours into key `j`, which was already replaced, and an empty value of key `j` itself can do the same (`Text.ReplaceAllCanLeaveKey`). Entries before `j` need nothing. The bindings of a component without inputs or outputs are `""`, so for a placeholder token longer than one character that comes before the inputs or outputs token in the table, the lemma says nothing about the files of the shipped container and list.
