# UnityConstants generator — a Dafny model

The Unity editor menu command *Edit/Generate Unity Constants* writes
`UnityConstants.cs`. This C# file has one static class per category of
project metadata:

- tags;
- sorting layers;
- the 32 layer slots, as indexes and as bit masks;
- the scenes of the build list;
- input-manager axes;
- audio-mixer exposed parameters;
- animator-controller parameters.

Each name becomes a `public const` declaration. The constant's name is the
name turned into a C# identifier by `MakeSafeForCode`, and a `///` summary
comment quoting the name comes before it.

This project models that command and proves properties of the model.

- `identifiers.dfy` (module `Identifiers`): `MakeSafeForCode`. It maps every
  character outside `[A-Za-z0-9_]` to `_` and puts a `_` in front when the
  result starts with a digit. It fails with an index error on the empty
  name, which is what `str[0]` does in the source.
- `paths.dfy` (`Paths`): the two path rules the generator relies on:
  - the base name of a scene path (`GetFileNameWithoutExtension`);
  - the output path built from a chosen folder (`Path.Combine`).

  Both are parameterised by the editor platform's directory separators.
- `categories.dfy` (`Categories`): the constants each category produces:
  - Tags, sorting layers and scenes: one constant per entry, in order.
  - Layers: one index constant and one mask constant per named slot.
- `dedup.dfy` (`Dedup`): the set of seen identifiers used by axes, mixer
  parameters and animator parameters. The first name that sanitises to an
  identifier wins; later ones are dropped. For mixers and animators, a
  single set serves all assets.
- `rendering.dfy` (`Rendering`): the text of the comment and declaration
  lines and of the class openings and closings.
- `output.dfy` (`Output`): the lines of each block and of the whole file,
  as functions of the project's data. This includes what the file holds
  when an empty name makes `MakeSafeForCode` throw. The exception escapes
  the command after the `using` block has flushed the writer, so the lines
  written so far stay in the file. No later line is written, and
  `AssetDatabase.Refresh` is not called.
- `generator.dfy` (`Generator`): the imperative part.
  - A `Writer` class whose `lines` field grows line by line.
  - One method per `Write…` routine of the source, with the same loops.
  - The `Generate` command.

  Each method is proved to append exactly the lines the corresponding
  `Output` function describes.

The editor's state is passed in as a `Project` value. It holds the tags,
the sorting layers, the layer table, the scene paths, the axis names, and
the parameter names of each mixer and of each animator controller. The
result of searching for an existing `UnityConstants.cs` and the folder
picked in the dialog are parameters of `Generate`.

Only axes, mixer parameters and animator parameters are deduplicated.
Tags, sorting layers and scenes keep one constant per entry even when two
entries sanitise to the same identifier
(`Categories.TagsKeepCollidingIdentifiers` shows two tags giving two
`Enemy_` constants).

## Model

| member | source | states |
|---|---|---|
| `Identifiers.MakeSafeForCode` | Scripts/Editor/UnityConstantsGenerator.cs:224-232 | fails (index out of range) exactly when the name is empty |
| `Identifiers.MakeSafeForCodeSpec` | Scripts/Editor/UnityConstantsGenerator.cs:226-230 | for a non-empty name the result is a safe identifier (non-empty, no leading digit, only `[A-Za-z0-9_]`); it has one extra leading `_` exactly when the name starts with a digit; after that, each character is kept if allowed and becomes `_` otherwise |
| `Identifiers.SafeIdentifiersAreFixedPoints` | Scripts/Editor/UnityConstantsGenerator.cs:226-231 | a string is returned unchanged if and only if it is already a safe identifier |
| `Identifiers.MakeSafeForCodeIdempotent` | Scripts/Editor/UnityConstantsGenerator.cs:224-232 | sanitising a sanitised name changes nothing |
| `Identifiers.MakeSafeForCodeExamples` | Scripts/Editor/UnityConstantsGenerator.cs:226-231 | `Player`, `Enemy!`, `3Lives`, `Jump Height` become `Player`, `Enemy_`, `_3Lives`, `Jump_Height`; the empty name fails |
| `Paths.LastSeparator` | Scripts/Editor/UnityConstantsGenerator.cs:133 | the position of the last directory/volume separator, or -1; no separator follows it |
| `Paths.FileName` | Scripts/Editor/UnityConstantsGenerator.cs:133 | the file name is the suffix of the path after its last separator: it holds no separator, and the character before it is a separator |
| `Paths.LastIndexOf` | Scripts/Editor/UnityConstantsGenerator.cs:133 | the last position of a character, or -1 when it does not occur |
| `Paths.FileNameWithoutExtension` | Scripts/Editor/UnityConstantsGenerator.cs:133 | the result is a prefix of the file name: the whole of it when there is no `.`, otherwise the part before the last `.` |
| `Paths.OutputPathIn` | Scripts/Editor/UnityConstantsGenerator.cs:26 | the output path is the chosen folder followed by `UnityConstants.cs`, with one directory separator between them unless the folder already ends in a separator; its file name is `UnityConstants.cs` and its base name `UnityConstants`, the name the existing-file search looks for |
| `Paths.OutputFileNameIsPlain` | Scripts/Editor/UnityConstantsGenerator.cs:26 | `UnityConstants.cs` holds no separator and its last `.` follows `UnityConstants` |
| `Paths.FileNameOfJoin` | Scripts/Editor/UnityConstantsGenerator.cs:26 | a separator-free name joined after a separator is the file name of the result |
| `Categories.FirstUnnamed` | Scripts/Editor/UnityConstantsGenerator.cs:67-72 | the position of the first empty name (or the length): all names before it are non-empty |
| `Categories.Listed` | Scripts/Editor/UnityConstantsGenerator.cs:67-73 | one constant per entry, in entry order, named by the sanitised name, valued by the entry's value, quoting the name; fails exactly when some name is empty |
| `Categories.TagConstants` | Scripts/Editor/UnityConstantsGenerator.cs:67-73 | tag `i` gives constant `i`: its sanitised name, valued by the tag text; fails exactly when some tag is empty |
| `Categories.SortingLayerConstants` | Scripts/Editor/UnityConstantsGenerator.cs:83-89 | sorting layer `i` gives constant `i`, valued by the layer's id; fails exactly when some layer name is empty |
| `Categories.SceneConstants` | Scripts/Editor/UnityConstantsGenerator.cs:131-138 | scene `i` gives constant `i`, valued `i`, its position in the build-settings scene list (disabled entries included); fails exactly when some scene name is empty |
| `Categories.LayerIndexConstants` | Scripts/Editor/UnityConstantsGenerator.cs:99-109 | no more index constants than slots (`LayerIndexPassSound` and `LayerIndexPassComplete` state which ones) |
| `Categories.LayerMaskConstants` | Scripts/Editor/UnityConstantsGenerator.cs:111-121 | no more mask constants than slots (`LayerMaskPassFollowsIndexPass` states which ones) |
| `Categories.LayerIndexPassSound` | Scripts/Editor/UnityConstantsGenerator.cs:99-109 | every index constant is that of a named slot, and the slot numbers strictly increase |
| `Categories.LayerIndexPassComplete` | Scripts/Editor/UnityConstantsGenerator.cs:99-109 | every named slot has its index constant |
| `Categories.LayerMaskPassFollowsIndexPass` | Scripts/Editor/UnityConstantsGenerator.cs:111-121 | the mask pass has as many constants as the index pass, and its k-th constant is the mask (`1 << i`, identifier + `Mask`) of the k-th index constant's slot |
| `Categories.MaskIdentifiersAreSafe` | Scripts/Editor/UnityConstantsGenerator.cs:119 | every mask identifier is a safe identifier |
| `Categories.MaskSuffixKeepsIdentifierSafe` | Scripts/Editor/UnityConstantsGenerator.cs:119 | appending `Mask` to a safe identifier keeps it safe |
| `Categories.TagsKeepCollidingIdentifiers` | Scripts/Editor/UnityConstantsGenerator.cs:67-73 | tags `Enemy!` and `Enemy?` give two constants both named `Enemy_`: tags are not deduplicated |
| `Dedup.Unique` | Scripts/Editor/UnityConstantsGenerator.cs:148-162 | the deduplicating loop succeeds exactly when every name is non-empty |
| `Dedup.Step` | Scripts/Editor/UnityConstantsGenerator.cs:152-161 | one turn of the loop: it fails exactly on an empty name (or after an earlier failure); on success it keeps every earlier constant and adds at most one, the set of identifiers gains exactly the name's identifier, and a constant is added only for an identifier not seen before, as the name's own constant |
| `Dedup.IdentifierSetAppend` | Scripts/Editor/UnityConstantsGenerator.cs:160 | adding a constant adds its identifier to the seen set and nothing else |
| `Dedup.UniqueCoversEveryName` | Scripts/Editor/UnityConstantsGenerator.cs:150-161 | the identifiers written are exactly the identifiers of all the names |
| `Dedup.UniqueIdentifiersDistinct` | Scripts/Editor/UnityConstantsGenerator.cs:154-160 | no two constants written share an identifier |
| `Dedup.UniqueKeepsFirstOccurrences` | Scripts/Editor/UnityConstantsGenerator.cs:154-160 | the set-based loop equals a set-free reference: keep, in order, each name no earlier name shares an identifier with |
| `Dedup.SeenUnlessFirst` | Scripts/Editor/UnityConstantsGenerator.cs:154 | the last name's identifier is among the earlier names' identifiers exactly when it is not a first occurrence |
| `Dedup.UniqueFirstNameWins` | Scripts/Editor/UnityConstantsGenerator.cs:154-160 | every constant written is the one for a first occurrence, and every first occurrence is written |
| `Dedup.FirstOccurrencesAreFirst` | Scripts/Editor/UnityConstantsGenerator.cs:154-160 | the same two directions for the set-free reference |
| `Dedup.UniqueDropsLaterDuplicate` | Scripts/Editor/UnityConstantsGenerator.cs:154-161 | deleting a name whose identifier an earlier name already produced leaves the output unchanged |
| `Dedup.UniqueSkipsSeen` | Scripts/Editor/UnityConstantsGenerator.cs:154-161 | a name whose identifier an earlier name produced can be removed, whatever follows it |
| `Dedup.UniqueSnoc` | Scripts/Editor/UnityConstantsGenerator.cs:150-161 | one more name is one more turn of the loop |
| `Dedup.FlattenAppend` | Scripts/Editor/UnityConstantsGenerator.cs:174-191 | the names of two runs of assets are the names of each, concatenated |
| `Dedup.Flatten` | Scripts/Editor/UnityConstantsGenerator.cs:174-191 | the names of all assets in asset order are all non-empty exactly when every asset's are (`FlattenAppend`, `FlattenIndex`, `FlattenAround` state the order) |
| `Dedup.FlattenIndex` | Scripts/Editor/UnityConstantsGenerator.cs:174-191 | every name of every asset appears in the flattened names |
| `Dedup.FlattenAround` | Scripts/Editor/UnityConstantsGenerator.cs:174-191 | replacing one asset's names replaces exactly that part of the flattened names |
| `Dedup.UniqueAcrossAssets` | Scripts/Editor/UnityConstantsGenerator.cs:173-191 | one set spans all assets: a later asset's name whose identifier an earlier asset produced is dropped, so the block is as if that asset did not list it |
| `Dedup.SharedMixerParameterWrittenOnce` | Scripts/Editor/UnityConstantsGenerator.cs:173-191 | two mixers that both expose `Volume` give one `Volume` constant |
| `Rendering.NatToString` | Scripts/Editor/UnityConstantsGenerator.cs:107 | decimal digits only, no leading zero, denoting the number |
| `Rendering.IntToString` | Scripts/Editor/UnityConstantsGenerator.cs:88 | a leading `-` exactly for negative numbers, then the decimal digits of the magnitude, with no leading zero |
| `Rendering.DocLine` | Scripts/Editor/UnityConstantsGenerator.cs:70 | the middle comment line quotes the unsanitised name verbatim, between `'` and `'.` |
| `Rendering.Declaration` | Scripts/Editor/UnityConstantsGenerator.cs:72 | a declaration line begins `        public const ` and ends with `;` |
| `Rendering.RenderAllLength` | Scripts/Editor/UnityConstantsGenerator.cs:69-72 | the constants of a block take four lines each |
| `Rendering.RenderAllAt` | Scripts/Editor/UnityConstantsGenerator.cs:69-72 | lines `4k` to `4k+3` are the lines of constant `k` |
| `Rendering.RenderAllLayout` | Scripts/Editor/UnityConstantsGenerator.cs:69-72 | constant `k` takes lines `4k`…`4k+3`: `/// <summary>`, the line quoting its name, `/// </summary>`, its declaration |
| `Output.Then` | Scripts/Editor/UnityConstantsGenerator.cs:29-45 | what the first step wrote is never taken back, and the run gets to its end exactly when both steps do |
| `Output.ThenAssociative` | Scripts/Editor/UnityConstantsGenerator.cs:29-45 | steps group either way: running `a`, `b` and then `c` is running `a` and then the pair `b`, `c` |
| `Output.ListedBlock` | Scripts/Editor/UnityConstantsGenerator.cs:62-92 | a tags/sorting-layers/scenes block runs to its end exactly when every name is non-empty |
| `Output.ListedBlockWhole` | Scripts/Editor/UnityConstantsGenerator.cs:62-76 | with every name present the block is its class around one constant per entry |
| `Output.ListedBlockStopsAt` | Scripts/Editor/UnityConstantsGenerator.cs:67-72 | the first empty name ends the block after its comment lines, which quote the empty name |
| `Output.UniqueBlock` | Scripts/Editor/UnityConstantsGenerator.cs:143-165 | an axes/mixer/animator block runs to its end exactly when every name is non-empty |
| `Output.UniqueBlockWhole` | Scripts/Editor/UnityConstantsGenerator.cs:143-165 | with every name present the block is its class around the constants of the first occurrences |
| `Output.UniqueBlockStopsAt` | Scripts/Editor/UnityConstantsGenerator.cs:150-154 | the first empty name ends the block after the constants of the names before it |
| `Output.LayersBlock` | Scripts/Editor/UnityConstantsGenerator.cs:94-124 | the layers block always runs to its end (empty slots are skipped, so the sanitiser never sees an empty name) and opens the `Layers` class (`LayerIndexPassSound`, `LayerIndexPassComplete`, `LayerMaskPassFollowsIndexPass` state its constants) |
| `Output.TagsBlockCompletes` | Scripts/Editor/UnityConstantsGenerator.cs:62-76 | the tags block completes exactly when no tag is empty |
| `Output.SortingLayersBlockCompletes` | Scripts/Editor/UnityConstantsGenerator.cs:78-92 | the sorting-layers block completes exactly when no layer name is empty |
| `Output.ScenesBlockCompletes` | Scripts/Editor/UnityConstantsGenerator.cs:126-141 | the scenes block completes exactly when no scene base name is empty |
| `Output.FileCompletesIffWellNamed` | Scripts/Editor/UnityConstantsGenerator.cs:29-46 | the file is written to its end (and Refresh runs) exactly when every name the sanitiser sees is non-empty |
| `Output.FileOutput` | Scripts/Editor/UnityConstantsGenerator.cs:29-45 | whatever the project holds, the file begins with the comment line, a blank line, `namespace UnityConstants` and `{`; a file written to its end closes with `}` and a blank line (`FileLayout`, `FileCompletesIffWellNamed` state the rest) |
| `Output.FileIsItsBlocks` | Scripts/Editor/UnityConstantsGenerator.cs:29-45 | with every name present, the file is the header, the seven blocks in order, and the footer |
| `Output.FileLayout` | Scripts/Editor/UnityConstantsGenerator.cs:29-45 | with every name present, the file is the header, then Tags, SortingLayers, Layers, Scenes, Axes, AudioMixerParams and AnimatorParams, each its class around all its constants, then the footer |
| `Output.FileEnding` | Scripts/Editor/UnityConstantsGenerator.cs:41-44 | with every name present, the file ends `    }`, `}`, blank: the last class has no blank line after it |
| `Output.NamedBlocks` | Scripts/Editor/UnityConstantsGenerator.cs:35-41 | with every name present, each block is its class around all its constants, and only the last has no blank line after it |
| `Output.ClosedWithoutBlank` | Scripts/Editor/UnityConstantsGenerator.cs:221-222 | a last class ending `    }` followed by the footer ends `    }`, `}`, blank |
| `Output.EmptyTagStopsTheFile` | Scripts/Editor/UnityConstantsGenerator.cs:62-72 | an empty tag leaves the header, the Tags opening, the constants of the tags before it and the comment quoting the empty tag, and nothing else |
| `Output.TagsBlockStopsAt` | Scripts/Editor/UnityConstantsGenerator.cs:67-72 | the tags block stops at the first empty tag, after its comment |
| `Output.FirstUnnamedAt` | Scripts/Editor/UnityConstantsGenerator.cs:67-72 | the first empty name is found where the non-empty names end |
| `Generator.Writer.constructor` | Scripts/Editor/UnityConstantsGenerator.cs:29 | a new writer has the given path and no lines |
| `Generator.Writer.WriteLine` | Scripts/Editor/UnityConstantsGenerator.cs:31 | appends exactly one line |
| `Generator.WriteClassOpening` | Scripts/Editor/UnityConstantsGenerator.cs:65-66 | appends the class line and `{` |
| `Generator.WriteClassClosing` | Scripts/Editor/UnityConstantsGenerator.cs:74-75 | appends `    }` and, unless the class is the last one, a blank line |
| `Generator.WriteDocComment` | Scripts/Editor/UnityConstantsGenerator.cs:69-71 | appends the three summary lines quoting the name |
| `Generator.WriteListed` | Scripts/Editor/UnityConstantsGenerator.cs:62-92 | the shared tags/sorting-layers/scenes loop appends exactly `ListedBlock`'s lines and reports whether it completed |
| `Generator.ListedStep` | Scripts/Editor/UnityConstantsGenerator.cs:67-73 | one more named entry adds its constant to the listed ones |
| `Generator.WriteTags` | Scripts/Editor/UnityConstantsGenerator.cs:62-76 | appends exactly the tags block |
| `Generator.WriteSortingLayers` | Scripts/Editor/UnityConstantsGenerator.cs:78-92 | appends exactly the sorting-layers block |
| `Generator.WriteLayers` | Scripts/Editor/UnityConstantsGenerator.cs:94-124 | appends the Layers class: index constants, a blank line, mask constants, closing |
| `Generator.WriteLayerIndexes` | Scripts/Editor/UnityConstantsGenerator.cs:99-109 | the first pass over the 32 slots appends the index constants of the named slots |
| `Generator.WriteLayerMasks` | Scripts/Editor/UnityConstantsGenerator.cs:111-121 | the second pass appends the mask constants of the named slots |
| `Generator.WriteScenes` | Scripts/Editor/UnityConstantsGenerator.cs:126-141 | appends exactly the scenes block |
| `Generator.WriteNewNames` | Scripts/Editor/UnityConstantsGenerator.cs:150-162 | the loop over one list of names with the seen set: on completion the set and the lines are those of the deduplicated names so far; otherwise it stops at an empty name, after the constants of the names before it |
| `Generator.WriteName` | Scripts/Editor/UnityConstantsGenerator.cs:152-161 | one turn: fails exactly on an empty name; otherwise writes a constant only for an unseen identifier and adds that identifier to the set |
| `Generator.StopInAsset` | Scripts/Editor/UnityConstantsGenerator.cs:174-191 | an empty name in one asset ends the block after the constants of the names before it, in this asset and the earlier ones |
| `Generator.WriteInputManagerAxes` | Scripts/Editor/UnityConstantsGenerator.cs:143-165 | appends exactly the axes block |
| `Generator.WriteAssetParams` | Scripts/Editor/UnityConstantsGenerator.cs:167-194 | the loop over assets with one seen set appends exactly the deduplicated block of all assets' names |
| `Generator.WriteAudioMixerParams` | Scripts/Editor/UnityConstantsGenerator.cs:167-194 | appends exactly the mixer-parameters block |
| `Generator.WriteAnimatorParams` | Scripts/Editor/UnityConstantsGenerator.cs:196-222 | appends exactly the animator-parameters block, with no blank line after it |
| `Generator.WriteHeader` | Scripts/Editor/UnityConstantsGenerator.cs:31-34 | appends the four header lines |
| `Generator.WriteFooter` | Scripts/Editor/UnityConstantsGenerator.cs:43-44 | appends `}` and a blank line |
| `Generator.TargetPath` | Scripts/Editor/UnityConstantsGenerator.cs:17-27 | an existing file is reused; with none, an empty folder choice cancels; otherwise the path is the folder, a separator unless the folder ends in one, and `UnityConstants.cs` |
| `Generator.WriteFirstBlocks` | Scripts/Editor/UnityConstantsGenerator.cs:31-37 | the header, Tags, SortingLayers and Layers, each written only if the one before completed |
| `Generator.WriteLastBlocks` | Scripts/Editor/UnityConstantsGenerator.cs:38-44 | Scenes, Axes, AudioMixerParams, AnimatorParams and the footer, each written only if the one before completed |
| `Generator.Generate` | Scripts/Editor/UnityConstantsGenerator.cs:15-47 | a cancelled dialog writes nothing; otherwise the file at the target path holds exactly `FileOutput`'s lines, and the asset database is refreshed exactly when the file was completed |

## Left out

- Reading editor state is not modelled. The tag list, sorting layers,
  layer table (`GetLayerName`), build scenes, the `InputManager.asset`
  axes, and the exposed parameters of each mixer and animator controller
  are inputs held in `Project`.
- `GetExistingFile` is not modelled: the directory scan is file-system I/O.
  Its result is the `existingFile` option passed to `Generate`.
- The `enabled` flag of each build-settings scene is not an input:
  `WriteScenes` never reads it, so a disabled scene still gets a constant
  valued by its position in the list.
- The folder dialog is not modelled; the chosen folder is a parameter, and
  `""` stands for a cancelled dialog.
- `StreamWriter` I/O is modelled only as the `Writer.lines` sequence, and
  `AssetDatabase.Refresh` only as the `refreshed` flag of `Run`. Encoding,
  line endings and an I/O failure while writing are left out.
- The regular-expression engine is replaced by a per-character map with
  the same effect for the pattern `[^a-zA-Z0-9_]`.
- Strings are sequences of Unicode scalar values, while .NET strings are
  UTF-16. A character outside the Basic Multilingual Plane becomes one `_`
  here and two in the source.
- A null name from the editor is treated as the empty string. Both make
  `MakeSafeForCode` throw, and layer slots skip both.
- Invalid path characters, which would make `Path.Combine`,
  `GetFileNameWithoutExtension` or `new StreamWriter` throw, are not
  modelled.
- The failure of `LoadAllAssetsAtPath(...)[0]` when there is no input
  manager asset is not modelled.
- The mask of layer 31 is written as the text `1 << 31`, as the source
  writes it. Its value as a signed 32-bit C# constant (negative) is not
  modelled.
- Sorting-layer ids are unbounded integers here. In the source they are
  32-bit ints, which fit the decimal text the model writes.
- Names are written into the file as they are: a `"` or newline inside a
  name is not escaped, in the source or here.
- `String.Format` is reduced to the concatenation it performs for these
  patterns.
- The `HashSet` is threaded through the loops as a `set` value rather than
  a shared mutable object. Its add-and-test behaviour is the same.
