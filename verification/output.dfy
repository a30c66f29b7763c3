/** What the generator writes, block by block and for the whole file, as
    functions of the project's data. A block that meets an empty name stops
    where MakeSafeForCode fails: the exception leaves the generator, the
    lines already written stay in the file, and no later line is written. */
module Output {
  import opened Identifiers
  import opened Paths
  import opened Categories
  import opened Dedup
  import opened Rendering

  /** The lines a step writes, and whether it ran to its end. */
  datatype Emission = Emission(lines: seq<string>, completed: bool)

  /** One step after another: a step that did not finish ends the run.
      What the first step wrote is never taken back, and the run gets to
      its end only when both steps do. */
  function Then(first: Emission, next: Emission): (e: Emission)
    ensures first.lines <= e.lines
    ensures e.completed <==> first.completed && next.completed
  {
    if first.completed then Emission(first.lines + next.lines, next.completed) else first
  }

  /** Steps group either way: writing `a` then `b` and then `c` is writing
      `a` and then the pair `b`, `c`. */
  lemma ThenAssociative(a: Emission, b: Emission, c: Emission)
    ensures Then(Then(a, b), c) == Then(a, Then(b, c))
  {
    if a.completed && b.completed {
      assert a.lines + b.lines + c.lines == a.lines + (b.lines + c.lines);
    }
  }

  /** The first `j` entries all have names exactly when the first `j` names
      are non-empty. */
  lemma NamedPrefix(entries: seq<Entry>, j: nat)
    requires j <= |entries| && AllNamed(Names(entries)[..j])
    ensures forall i :: 0 <= i < j ==> entries[..j][i].name != ""
  {
    forall i | 0 <= i < j
      ensures entries[..j][i].name != ""
    {
      assert Names(entries)[..j][i] == entries[i].name;
    }
  }

  /** A block written entry by entry (tags, sorting layers, scenes): the
      three comment lines come before MakeSafeForCode, so an entry with an
      empty name leaves its comment, quoting the empty name, as the last
      lines written. */
  function ListedBlock(className: string, kind: Kind, entries: seq<Entry>): (e: Emission)
    ensures e.completed <==> AllNamed(Names(entries))
  {
    var j := FirstUnnamed(Names(entries));
    NamedPrefix(entries, j);
    assert entries[..|entries|] == entries;
    if j == |entries| then Emission(Block(className, Listed(kind, entries).value, true), true)
    else Emission(ClassOpening(className) + RenderAll(Listed(kind, entries[..j]).value) + DocComment(kind, entries[j].name), false)
  }

  /** With every entry named, the block is its class around one constant
      per entry. */
  lemma ListedBlockWhole(className: string, kind: Kind, entries: seq<Entry>, cs: seq<Constant>)
    requires Listed(kind, entries) == Success(cs)
    ensures ListedBlock(className, kind, entries) == Emission(Block(className, cs, true), true)
  {
    assert AllNamed(Names(entries));
  }

  /** The first entry without a name ends the block after its comment. */
  lemma ListedBlockStopsAt(className: string, kind: Kind, entries: seq<Entry>, i: nat, cs: seq<Constant>)
    requires i < |entries| && entries[i].name == ""
    requires Listed(kind, entries[..i]) == Success(cs)
    ensures ListedBlock(className, kind, entries) ==
      Emission(ClassOpening(className) + RenderAll(cs) + DocComment(kind, ""), false)
  {
    assert AllNamed(Names(entries)[..i]) by {
      forall k | 0 <= k < i
        ensures Names(entries)[..i][k] != ""
      {
        assert entries[..i][k] == entries[k];
      }
    }
    FirstUnnamedAt(Names(entries), i);
  }

  /** A block written through a set of seen identifiers (axes, mixer and
      animator parameters): MakeSafeForCode comes first, so an empty name
      leaves the constants before it as the last lines written. */
  function UniqueBlock(className: string, kind: Kind, names: seq<string>, blankAfter: bool): (e: Emission)
    ensures e.completed <==> AllNamed(names)
  {
    var j := FirstUnnamed(names);
    assert names[..|names|] == names;
    if j == |names| then Emission(Block(className, Unique(kind, names).value, blankAfter), true)
    else Emission(ClassOpening(className) + RenderAll(Unique(kind, names[..j]).value), false)
  }

  /** With every name present, the block is its class around the
      constants of the first occurrences. */
  lemma UniqueBlockWhole(className: string, kind: Kind, names: seq<string>, blankAfter: bool)
    requires AllNamed(names)
    ensures UniqueBlock(className, kind, names, blankAfter) ==
      Emission(Block(className, Unique(kind, names).value, blankAfter), true)
  {
  }

  /** The first empty name ends the block after the constants before it. */
  lemma UniqueBlockStopsAt(className: string, kind: Kind, names: seq<string>, j: nat, blankAfter: bool)
    requires j < |names| && names[j] == "" && AllNamed(names[..j])
    ensures UniqueBlock(className, kind, names, blankAfter) ==
      Emission(ClassOpening(className) + RenderAll(Unique(kind, names[..j]).value), false)
  {
    FirstUnnamedAt(names, j);
  }

  /** The name the editor reports for a layer slot: slots the table does
      not hold are unnamed. */
  function LayerName(layers: seq<string>, i: nat): string {
    if i < |layers| then layers[i] else ""
  }

  /** The 32 slots the generator queries. */
  function LayerSlots(layers: seq<string>): seq<string> {
    seq(LAYER_SLOTS, i requires 0 <= i < LAYER_SLOTS => LayerName(layers, i))
  }

  /** The layers block: the index constants, a blank line, the mask
      constants. Empty slots are skipped, so it never fails. */
  function LayersBlock(layers: seq<string>): (e: Emission)
    ensures e.completed
    ensures ClassOpening("Layers") <= e.lines
  {
    var slots := LayerSlots(layers);
    Emission(ClassOpening("Layers") + RenderAll(LayerIndexConstants(slots)) + [""]
      + RenderAll(LayerMaskConstants(slots)) + ClassClosing(true), true)
  }

  function TagsBlock(tags: seq<string>): Emission {
    ListedBlock("Tags", Tag, TagEntries(tags))
  }

  function SortingLayersBlock(layers: seq<SortingLayerInfo>): Emission {
    ListedBlock("SortingLayers", SortingLayer, SortingLayerEntries(layers))
  }

  function ScenesBlock(p: Platform, scenePaths: seq<string>): Emission {
    ListedBlock("Scenes", Scene, SceneEntries(SceneNames(p, scenePaths)))
  }

  function AxesBlock(axes: seq<string>): Emission {
    UniqueBlock("Axes", Axis, axes, true)
  }

  /** One set of seen identifiers spans the parameters of every mixer. */
  function MixersBlock(mixers: seq<seq<string>>): Emission {
    UniqueBlock("AudioMixerParams", MixerParam, Flatten(mixers), true)
  }

  /** The last block: its class is closed without a blank line after it. */
  function AnimatorsBlock(animators: seq<seq<string>>): Emission {
    UniqueBlock("AnimatorParams", AnimatorParam, Flatten(animators), false)
  }

  /** What the editor reports about the project: tags, sorting layers, the
      layer table, the scene paths of the build-settings list (disabled
      entries included), the input axes, and the exposed parameter names of
      each mixer and of each animator controller, in the order the asset
      search returns them. */
  datatype Project = Project(
    tags: seq<string>,
    sortingLayers: seq<SortingLayerInfo>,
    layers: seq<string>,
    scenePaths: seq<string>,
    axes: seq<string>,
    mixers: seq<seq<string>>,
    animators: seq<seq<string>>)

  /** The file: the header, the seven blocks in their fixed order, and the
      closing brace of the namespace. Whatever the project holds, the file
      opens with the header; a file written to its end closes with the
      footer. */
  function FileOutput(p: Platform, project: Project): (e: Emission)
    ensures HEADER <= e.lines
    ensures e.completed ==> |HEADER| + |FOOTER| <= |e.lines| && e.lines[|e.lines| - |FOOTER|..] == FOOTER
  {
    var header := Emission(HEADER, true);
    var withTags := Then(header, TagsBlock(project.tags));
    var withSorting := Then(withTags, SortingLayersBlock(project.sortingLayers));
    var withLayers := Then(withSorting, LayersBlock(project.layers));
    var withScenes := Then(withLayers, ScenesBlock(p, project.scenePaths));
    var withAxes := Then(withScenes, AxesBlock(project.axes));
    var withMixers := Then(withAxes, MixersBlock(project.mixers));
    var withAnimators := Then(withMixers, AnimatorsBlock(project.animators));
    ThenKeepsPrefix(HEADER, header, TagsBlock(project.tags));
    ThenKeepsPrefix(HEADER, withTags, SortingLayersBlock(project.sortingLayers));
    ThenKeepsPrefix(HEADER, withSorting, LayersBlock(project.layers));
    ThenKeepsPrefix(HEADER, withLayers, ScenesBlock(p, project.scenePaths));
    ThenKeepsPrefix(HEADER, withScenes, AxesBlock(project.axes));
    ThenKeepsPrefix(HEADER, withAxes, MixersBlock(project.mixers));
    ThenKeepsPrefix(HEADER, withMixers, AnimatorsBlock(project.animators));
    ThenKeepsPrefix(HEADER, withAnimators, Emission(FOOTER, true));
    Then(withAnimators, Emission(FOOTER, true))
  }

  /** A prefix of what one step wrote is a prefix of what the run wrote. */
  lemma ThenKeepsPrefix(prefix: seq<string>, first: Emission, next: Emission)
    requires prefix <= first.lines
    ensures prefix <= Then(first, next).lines
  {
  }

  /** Every name MakeSafeForCode sees is non-empty. */
  predicate WellNamed(p: Platform, project: Project) {
    && AllNamed(project.tags)
    && (forall i :: 0 <= i < |project.sortingLayers| ==> project.sortingLayers[i].name != "")
    && AllNamed(SceneNames(p, project.scenePaths))
    && AllNamed(project.axes)
    && AllNamed(Flatten(project.mixers))
    && AllNamed(Flatten(project.animators))
  }

  lemma TagsBlockCompletes(tags: seq<string>)
    ensures TagsBlock(tags).completed <==> AllNamed(tags)
  {
    assert forall i :: 0 <= i < |tags| ==> Names(TagEntries(tags))[i] == tags[i];
  }

  lemma SortingLayersBlockCompletes(layers: seq<SortingLayerInfo>)
    ensures SortingLayersBlock(layers).completed <==>
      forall i :: 0 <= i < |layers| ==> layers[i].name != ""
  {
    assert forall i :: 0 <= i < |layers| ==> Names(SortingLayerEntries(layers))[i] == layers[i].name;
  }

  lemma ScenesBlockCompletes(p: Platform, scenePaths: seq<string>)
    ensures ScenesBlock(p, scenePaths).completed <==> AllNamed(SceneNames(p, scenePaths))
  {
    var names := SceneNames(p, scenePaths);
    assert forall i :: 0 <= i < |names| ==> Names(SceneEntries(names))[i] == names[i];
  }

  /** The file is written to its end exactly when no name that reaches
      MakeSafeForCode is empty; otherwise the run stops part-way and the
      refresh after it never happens. */
  lemma FileCompletesIffWellNamed(p: Platform, project: Project)
    ensures FileOutput(p, project).completed <==> WellNamed(p, project)
  {
    TagsBlockCompletes(project.tags);
    SortingLayersBlockCompletes(project.sortingLayers);
    ScenesBlockCompletes(p, project.scenePaths);
  }

  /** With every name present, every block runs to its end and the file is
      the header, the seven blocks one after the other, and the footer. */
  lemma FileIsItsBlocks(p: Platform, project: Project)
    requires WellNamed(p, project)
    ensures FileOutput(p, project) == Emission(
      HEADER + TagsBlock(project.tags).lines + SortingLayersBlock(project.sortingLayers).lines
      + LayersBlock(project.layers).lines + ScenesBlock(p, project.scenePaths).lines
      + AxesBlock(project.axes).lines + MixersBlock(project.mixers).lines
      + AnimatorsBlock(project.animators).lines + FOOTER, true)
  {
    TagsBlockCompletes(project.tags);
    SortingLayersBlockCompletes(project.sortingLayers);
    ScenesBlockCompletes(p, project.scenePaths);
    var tags := TagsBlock(project.tags);
    var sorting := SortingLayersBlock(project.sortingLayers);
    var layers := LayersBlock(project.layers);
    var scenes := ScenesBlock(p, project.scenePaths);
    var axes := AxesBlock(project.axes);
    var mixers := MixersBlock(project.mixers);
    var animators := AnimatorsBlock(project.animators);
    var withTags := Then(Emission(HEADER, true), tags);
    var withSorting := Then(withTags, sorting);
    var withLayers := Then(withSorting, layers);
    var withScenes := Then(withLayers, scenes);
    var withAxes := Then(withScenes, axes);
    var withMixers := Then(withAxes, mixers);
    var withAnimators := Then(withMixers, animators);
    assert withAnimators == Emission(HEADER + tags.lines + sorting.lines + layers.lines + scenes.lines
      + axes.lines + mixers.lines + animators.lines, true);
  }

  /** With every name present, the file is the header, the seven blocks in
      the order Tags, SortingLayers, Layers, Scenes, Axes, AudioMixerParams,
      AnimatorParams, each a class around all of its constants, and the
      closing brace. */
  lemma FileLayout(p: Platform, project: Project)
    requires WellNamed(p, project)
    ensures FileOutput(p, project).completed
    ensures FileOutput(p, project).lines ==
      HEADER
      + Block("Tags", TagConstants(project.tags).value, true)
      + Block("SortingLayers", SortingLayerConstants(project.sortingLayers).value, true)
      + LayersBlock(project.layers).lines
      + Block("Scenes", SceneConstants(SceneNames(p, project.scenePaths)).value, true)
      + Block("Axes", Unique(Axis, project.axes).value, true)
      + Block("AudioMixerParams", Unique(MixerParam, Flatten(project.mixers)).value, true)
      + Block("AnimatorParams", Unique(AnimatorParam, Flatten(project.animators)).value, false)
      + FOOTER
  {
    FileIsItsBlocks(p, project);
    NamedBlocks(p, project);
  }

  /** Only the last block is not followed by a blank line, so a file written
      to its end ends `    }`, `}`, blank. */
  lemma FileEnding(p: Platform, project: Project)
    requires WellNamed(p, project)
    ensures var lines := FileOutput(p, project).lines;
      |lines| >= 3 && lines[|lines| - 3..] == ["    }", "}", ""]
  {
    FileCompletesIffWellNamed(p, project);
    var header := Emission(HEADER, true);
    var withTags := Then(header, TagsBlock(project.tags));
    var withSorting := Then(withTags, SortingLayersBlock(project.sortingLayers));
    var withLayers := Then(withSorting, LayersBlock(project.layers));
    var withScenes := Then(withLayers, ScenesBlock(p, project.scenePaths));
    var withAxes := Then(withScenes, AxesBlock(project.axes));
    var withMixers := Then(withAxes, MixersBlock(project.mixers));
    var animators := AnimatorsBlock(project.animators);
    var withAnimators := Then(withMixers, animators);
    assert FileOutput(p, project) == Then(withAnimators, Emission(FOOTER, true));
    UniqueBlockWhole("AnimatorParams", AnimatorParam, Flatten(project.animators), false);
    LastClassCloses("AnimatorParams", Unique(AnimatorParam, Flatten(project.animators)).value);
    ClosedWithoutBlank(withMixers.lines, animators.lines);
  }

  /** A class closed without a blank line ends with its closing brace. */
  lemma LastClassCloses(className: string, cs: seq<Constant>)
    ensures var b := Block(className, cs, false); |b| >= 1 && b[|b| - 1] == "    }"
  {
  }

  /** With every name present, each block is its class around all of its
      constants. */
  lemma NamedBlocks(p: Platform, project: Project)
    requires WellNamed(p, project)
    ensures TagsBlock(project.tags) == Emission(Block("Tags", TagConstants(project.tags).value, true), true)
    ensures SortingLayersBlock(project.sortingLayers) ==
      Emission(Block("SortingLayers", SortingLayerConstants(project.sortingLayers).value, true), true)
    ensures ScenesBlock(p, project.scenePaths) ==
      Emission(Block("Scenes", SceneConstants(SceneNames(p, project.scenePaths)).value, true), true)
    ensures AxesBlock(project.axes) == Emission(Block("Axes", Unique(Axis, project.axes).value, true), true)
    ensures MixersBlock(project.mixers) ==
      Emission(Block("AudioMixerParams", Unique(MixerParam, Flatten(project.mixers)).value, true), true)
    ensures AnimatorsBlock(project.animators) ==
      Emission(Block("AnimatorParams", Unique(AnimatorParam, Flatten(project.animators)).value, false), true)
  {
    TagsBlockCompletes(project.tags);
    SortingLayersBlockCompletes(project.sortingLayers);
    ScenesBlockCompletes(p, project.scenePaths);
  }

  /** A file whose last class ends `    }` ends `    }`, `}`, blank. */
  lemma ClosedWithoutBlank(front: seq<string>, last: seq<string>)
    requires |last| >= 1 && last[|last| - 1] == "    }"
    ensures var lines := front + last + FOOTER;
      |lines| >= 3 && lines[|lines| - 3..] == ["    }", "}", ""]
  {
  }

  /** An empty tag stops the file inside the Tags block, right after the
      comment that quotes it: the header, the constants of the tags before
      it, and a comment for the empty name are all the file holds. */
  lemma EmptyTagStopsTheFile(p: Platform, project: Project, j: nat)
    requires j < |project.tags| && AllNamed(project.tags[..j]) && project.tags[j] == ""
    ensures !FileOutput(p, project).completed
    ensures FileOutput(p, project).lines ==
      HEADER + ClassOpening("Tags") + RenderAll(TagConstants(project.tags[..j]).value) + DocComment(Tag, "")
  {
    var tags := project.tags;
    TagsBlockStopsAt(tags, j);
    Regrouped(HEADER, ClassOpening("Tags"), RenderAll(TagConstants(tags[..j]).value), DocComment(Tag, ""));
    var stopped := Emission(HEADER + ClassOpening("Tags") + RenderAll(TagConstants(tags[..j]).value) + DocComment(Tag, ""), false);
    var withTags := Then(Emission(HEADER, true), TagsBlock(tags));
    assert withTags == stopped;
    var withSorting := Then(withTags, SortingLayersBlock(project.sortingLayers));
    var withLayers := Then(withSorting, LayersBlock(project.layers));
    var withScenes := Then(withLayers, ScenesBlock(p, project.scenePaths));
    var withAxes := Then(withScenes, AxesBlock(project.axes));
    var withMixers := Then(withAxes, MixersBlock(project.mixers));
    var withAnimators := Then(withMixers, AnimatorsBlock(project.animators));
    assert withAnimators == stopped;
  }

  /** The tags block stops at the first empty tag, after the constants of
      the tags before it and the comment for the empty one. */
  lemma TagsBlockStopsAt(tags: seq<string>, j: nat)
    requires j < |tags| && AllNamed(tags[..j]) && tags[j] == ""
    ensures TagsBlock(tags) ==
      Emission(ClassOpening("Tags") + RenderAll(TagConstants(tags[..j]).value) + DocComment(Tag, ""), false)
  {
    var entries := TagEntries(tags);
    assert entries[..j] == TagEntries(tags[..j]);
    ListedBlockStopsAt("Tags", Tag, entries, j, TagConstants(tags[..j]).value);
  }

  /** The position of the first empty name is where the names stop being
      non-empty. */
  lemma FirstUnnamedAt(names: seq<string>, j: nat)
    requires j < |names| && AllNamed(names[..j]) && names[j] == ""
    ensures FirstUnnamed(names) == j
  {
  }
}
