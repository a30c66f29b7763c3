/** The generator as it runs: a writer collecting lines, the Write routines
    that fill it block by block, and the menu command that picks the path
    and runs them in order. Each routine is proved to write exactly the
    lines the Output module describes, stopping where MakeSafeForCode fails. */
module Generator {
  import opened Identifiers
  import opened Paths
  import opened Categories
  import opened Dedup
  import opened Rendering
  import opened Output

  /** The stream the file is written through: its path and the lines
      written so far. */
  class Writer {
    const path: string
    var lines: seq<string>

    constructor (path: string)
      ensures this.path == path && lines == []
    {
      this.path := path;
      lines := [];
    }

    method WriteLine(line: string)
      modifies this
      ensures lines == old(lines) + [line]
    {
      lines := lines + [line];
    }
  }

  /** The two lines that open a category's class. */
  method WriteClassOpening(w: Writer, className: string)
    modifies w
    ensures w.lines == old(w.lines) + ClassOpening(className)
  {
    w.WriteLine("    public static class " + className);
    w.WriteLine("    {");
  }

  /** The line that closes a class, and the blank line after it unless the
      class is the last one. */
  method WriteClassClosing(w: Writer, blankAfter: bool)
    modifies w
    ensures w.lines == old(w.lines) + ClassClosing(blankAfter)
  {
    w.WriteLine("    }");
    if blankAfter {
      w.WriteLine("");
    }
  }

  /** The three comment lines before a constant. */
  method WriteDocComment(w: Writer, kind: Kind, name: string)
    modifies w
    ensures w.lines == old(w.lines) + DocComment(kind, name)
  {
    w.WriteLine("        /// <summary>");
    w.WriteLine("        /// " + Description(kind) + " '" + name + "'.");
    w.WriteLine("        /// </summary>");
  }

  /** The loop shared by WriteTags, WriteSortingLayers and WriteScenes: for
      each entry, the comment, then MakeSafeForCode, then the declaration. */
  method WriteListed(w: Writer, className: string, kind: Kind, entries: seq<Entry>) returns (completed: bool)
    modifies w
    ensures w.lines == old(w.lines) + ListedBlock(className, kind, entries).lines
    ensures completed == ListedBlock(className, kind, entries).completed
  {
    WriteClassOpening(w, className);
    ghost var cs: seq<Constant> := [];
    ghost var head := w.lines;
    var i := 0;
    while i < |entries|
      invariant 0 <= i <= |entries|
      invariant Listed(kind, entries[..i]) == Success(cs)
      invariant w.lines == head + RenderAll(cs)
    {
      var entry := entries[i];
      WriteDocComment(w, kind, entry.name);
      var safe := MakeSafeForCode(entry.name);
      if safe.Failure? {
        ListedBlockStopsAt(className, kind, entries, i, cs);
        Regrouped(old(w.lines), ClassOpening(className), RenderAll(cs), DocComment(kind, ""));
        return false;
      }
      var c := Constant(kind, safe.value, entry.value, entry.name);
      w.WriteLine(Declaration(c));
      ListedStep(kind, entries, i, cs);
      RenderNext(head, cs, c);
      cs := cs + [c];
      i := i + 1;
    }
    WriteClassClosing(w, true);
    assert entries[..i] == entries;
    ListedBlockWhole(className, kind, entries, cs);
    Regrouped(old(w.lines), ClassOpening(className), RenderAll(cs), ClassClosing(true));
    return true;
  }

  /** One more named entry adds its constant to the listed ones. */
  lemma ListedStep(kind: Kind, entries: seq<Entry>, i: nat, cs: seq<Constant>)
    requires i < |entries| && entries[i].name != ""
    requires Listed(kind, entries[..i]) == Success(cs)
    ensures Listed(kind, entries[..i + 1]) ==
      Success(cs + [Constant(kind, MakeSafeForCode(entries[i].name).value, entries[i].value, entries[i].name)])
  {
    assert entries[..i + 1][..i] == entries[..i];
  }

  method WriteTags(w: Writer, tags: seq<string>) returns (completed: bool)
    modifies w
    ensures w.lines == old(w.lines) + TagsBlock(tags).lines
    ensures completed == TagsBlock(tags).completed
  {
    completed := WriteListed(w, "Tags", Tag, TagEntries(tags));
  }

  method WriteSortingLayers(w: Writer, layers: seq<SortingLayerInfo>) returns (completed: bool)
    modifies w
    ensures w.lines == old(w.lines) + SortingLayersBlock(layers).lines
    ensures completed == SortingLayersBlock(layers).completed
  {
    completed := WriteListed(w, "SortingLayers", SortingLayer, SortingLayerEntries(layers));
  }

  method WriteScenes(w: Writer, p: Platform, scenePaths: seq<string>) returns (completed: bool)
    modifies w
    ensures w.lines == old(w.lines) + ScenesBlock(p, scenePaths).lines
    ensures completed == ScenesBlock(p, scenePaths).completed
  {
    completed := WriteListed(w, "Scenes", Scene, SceneEntries(SceneNames(p, scenePaths)));
  }

  /** Two passes over the 32 layer slots, skipping the unnamed ones: index
      constants, a blank line, then mask constants. */
  method WriteLayers(w: Writer, layers: seq<string>)
    modifies w
    ensures w.lines == old(w.lines) + LayersBlock(layers).lines
  {
    WriteClassOpening(w, "Layers");
    WriteLayerIndexes(w, layers);
    w.WriteLine("");
    WriteLayerMasks(w, layers);
    WriteClassClosing(w, true);
    ghost var slots := LayerSlots(layers);
    LayersRegrouped(old(w.lines), ClassOpening("Layers"), RenderAll(LayerIndexConstants(slots)),
      RenderAll(LayerMaskConstants(slots)), ClassClosing(true));
  }

  /** The first loop over the 32 slots: an index constant for each named one. */
  method WriteLayerIndexes(w: Writer, layers: seq<string>)
    modifies w
    ensures w.lines == old(w.lines) + RenderAll(LayerIndexConstants(LayerSlots(layers)))
  {
    ghost var slots := LayerSlots(layers);
    ghost var head := w.lines;
    var i := 0;
    while i < 32
      invariant 0 <= i <= 32
      invariant w.lines == head + RenderAll(LayerIndexConstants(slots[..i]))
    {
      var layer := LayerName(layers, i);
      ghost var before := LayerIndexConstants(slots[..i]);
      assert slots[i] == layer;
      LayerIndexStep(slots, i);
      if layer != "" {
        WriteDocComment(w, LayerIndex, layer);
        var c := Constant(LayerIndex, MakeSafeForCode(layer).value, Number(i), layer);
        w.WriteLine(Declaration(c));
        assert LayerIndexConstants(slots[..i + 1]) == before + [c];
        RenderNext(head, before, c);
      } else {
        assert LayerIndexConstants(slots[..i + 1]) == before;
      }
      i := i + 1;
    }
    assert slots[..i] == slots;
  }

  /** The second loop over the 32 slots: a mask constant for each named one. */
  method WriteLayerMasks(w: Writer, layers: seq<string>)
    modifies w
    ensures w.lines == old(w.lines) + RenderAll(LayerMaskConstants(LayerSlots(layers)))
  {
    ghost var slots := LayerSlots(layers);
    ghost var head := w.lines;
    var i := 0;
    while i < 32
      invariant 0 <= i <= 32
      invariant w.lines == head + RenderAll(LayerMaskConstants(slots[..i]))
    {
      var layer := LayerName(layers, i);
      ghost var before := LayerMaskConstants(slots[..i]);
      assert slots[i] == layer;
      LayerMaskStep(slots, i);
      if layer != "" {
        WriteDocComment(w, LayerMask, layer);
        var c := Constant(LayerMask, MakeSafeForCode(layer).value + "Mask", Shift(i), layer);
        w.WriteLine(Declaration(c));
        assert LayerMaskConstants(slots[..i + 1]) == before + [c];
        RenderNext(head, before, c);
      } else {
        assert LayerMaskConstants(slots[..i + 1]) == before;
      }
      i := i + 1;
    }
    assert slots[..i] == slots;
  }

  /** The layers block appended in parts is the block appended whole. */
  lemma LayersRegrouped(lines: seq<string>, opening: seq<string>, indexes: seq<string>, masks: seq<string>, closing: seq<string>)
    ensures lines + opening + indexes + [""] + masks + closing == lines + (opening + indexes + [""] + masks + closing)
  {
  }

  /** The loop over one list of names with the set of identifiers written so
      far: MakeSafeForCode, and a constant only for an identifier not in the
      set. `prior` are the names handled before, `head` the lines before
      their constants. */
  method WriteNewNames(w: Writer, kind: Kind, names: seq<string>, seen: set<string>,
                       ghost prior: seq<string>, ghost head: seq<string>)
    returns (seenAfter: set<string>, completed: bool, ghost stop: nat)
    requires AllNamed(prior) && seen == IdentifierSet(Unique(kind, prior).value)
    requires w.lines == head + RenderAll(Unique(kind, prior).value)
    modifies w
    ensures completed ==>
      && AllNamed(prior + names)
      && seenAfter == IdentifierSet(Unique(kind, prior + names).value)
      && w.lines == head + RenderAll(Unique(kind, prior + names).value)
    ensures !completed ==>
      && stop < |names| && names[stop] == "" && AllNamed(prior + names[..stop])
      && w.lines == head + RenderAll(Unique(kind, prior + names[..stop]).value)
  {
    seenAfter := seen;
    ghost var cs := Unique(kind, prior).value;
    assert prior + names[..0] == prior;
    var q := 0;
    while q < |names|
      invariant 0 <= q <= |names|
      invariant Unique(kind, prior + names[..q]) == Success(cs)
      invariant seenAfter == IdentifierSet(cs)
      invariant w.lines == head + RenderAll(cs)
    {
      PrefixStep(prior, names, q);
      var ok;
      ok, seenAfter, cs := WriteName(w, kind, names[q], seenAfter, prior + names[..q], cs, head);
      if !ok {
        return seenAfter, false, q;
      }
      q := q + 1;
    }
    assert names[..q] == names;
    return seenAfter, true, 0;
  }

  /** The names handled grow by one name per turn. */
  lemma PrefixStep(prior: seq<string>, names: seq<string>, q: nat)
    requires q < |names|
    ensures prior + names[..q + 1] == (prior + names[..q]) + [names[q]]
  {
  }

  /** One turn of the loop: MakeSafeForCode, which fails on an empty name,
      then a constant only for an identifier not seen yet, which is then
      seen. `done` are the names handled before, `head` the lines before
      their constants. */
  method WriteName(w: Writer, kind: Kind, name: string, seen: set<string>,
                   ghost done: seq<string>, ghost cs: seq<Constant>, ghost head: seq<string>)
    returns (ok: bool, seenAfter: set<string>, ghost csAfter: seq<Constant>)
    requires Unique(kind, done) == Success(cs)
    requires seen == IdentifierSet(cs) && w.lines == head + RenderAll(cs)
    modifies w
    ensures ok <==> name != ""
    ensures ok ==> Unique(kind, done + [name]) == Success(csAfter)
    ensures seenAfter == IdentifierSet(csAfter) && w.lines == head + RenderAll(csAfter)
    ensures !ok ==> csAfter == cs
  {
    seenAfter, csAfter := seen, cs;
    var variableName := MakeSafeForCode(name);
    if variableName.Failure? {
      return false, seenAfter, csAfter;
    }
    ok := true;
    var id := variableName.value;
    UniqueSnoc(kind, done, name);
    if id !in seen {
      WriteDocComment(w, kind, name);
      var c := Constant(kind, id, Text(name), name);
      w.WriteLine(Declaration(c));
      RenderNext(head, cs, c);
      IdentifierSetAppend(cs, c);
      seenAfter := seen + {id};
      csAfter := cs + [c];
    }
  }

  /** An empty name in one asset ends the block after the constants of the
      names before it, in this asset and the earlier ones. */
  lemma StopInAsset(className: string, kind: Kind, groups: seq<seq<string>>, blankAfter: bool, a: nat, stop: nat)
    requires a < |groups| && stop < |groups[a]| && groups[a][stop] == ""
    requires AllNamed(Flatten(groups[..a]) + groups[a][..stop])
    ensures UniqueBlock(className, kind, Flatten(groups), blankAfter) ==
      Emission(ClassOpening(className) + RenderAll(Unique(kind, Flatten(groups[..a]) + groups[a][..stop]).value), false)
  {
    FlattenAround(groups, a, groups[a]);
    assert groups[a := groups[a]] == groups;
    var j := |Flatten(groups[..a])| + stop;
    assert Flatten(groups)[..j] == Flatten(groups[..a]) + groups[a][..stop];
    UniqueBlockStopsAt(className, kind, Flatten(groups), j, blankAfter);
  }

  /** WriteInputManagerAxes: one set of seen identifiers over the axes. */
  method WriteInputManagerAxes(w: Writer, axes: seq<string>) returns (completed: bool)
    modifies w
    ensures w.lines == old(w.lines) + AxesBlock(axes).lines
    ensures completed == AxesBlock(axes).completed
  {
    WriteClassOpening(w, "Axes");
    assert [] + axes == axes;
    assert Unique(Axis, []) == Success([]);
    assert IdentifierSet([]) == {};
    var seen;
    ghost var stop;
    seen, completed, stop := WriteNewNames(w, Axis, axes, {}, [], w.lines);
    if completed {
      WriteClassClosing(w, true);
      UniqueBlockWhole("Axes", Axis, axes, true);
      Regrouped(old(w.lines), ClassOpening("Axes"), RenderAll(Unique(Axis, axes).value), ClassClosing(true));
    } else {
      assert [] + axes[..stop] == axes[..stop];
      UniqueBlockStopsAt("Axes", Axis, axes, stop, true);
      RegroupedTwo(old(w.lines), ClassOpening("Axes"), RenderAll(Unique(Axis, axes[..stop]).value));
    }
  }

  /** The loop over assets shared by WriteAudioMixerParams and
      WriteAnimatorParams: the set of seen identifiers is made once, before
      the first asset. */
  method WriteAssetParams(w: Writer, className: string, kind: Kind, groups: seq<seq<string>>, blankAfter: bool)
    returns (completed: bool)
    modifies w
    ensures w.lines == old(w.lines) + UniqueBlock(className, kind, Flatten(groups), blankAfter).lines
    ensures completed == UniqueBlock(className, kind, Flatten(groups), blankAfter).completed
  {
    WriteClassOpening(w, className);
    ghost var head := w.lines;
    var seen: set<string> := {};
    var a := 0;
    while a < |groups|
      invariant 0 <= a <= |groups|
      invariant AllNamed(Flatten(groups[..a]))
      invariant seen == IdentifierSet(Unique(kind, Flatten(groups[..a])).value)
      invariant w.lines == head + RenderAll(Unique(kind, Flatten(groups[..a])).value)
    {
      ghost var prior := Flatten(groups[..a]);
      assert groups[..a + 1][..a] == groups[..a];
      assert Flatten(groups[..a + 1]) == prior + groups[a];
      var ok;
      ghost var stop;
      seen, ok, stop := WriteNewNames(w, kind, groups[a], seen, prior, head);
      if !ok {
        StopInAsset(className, kind, groups, blankAfter, a, stop);
        RegroupedTwo(old(w.lines), ClassOpening(className), RenderAll(Unique(kind, prior + groups[a][..stop]).value));
        return false;
      }
      a := a + 1;
    }
    assert groups[..a] == groups;
    WriteClassClosing(w, blankAfter);
    UniqueBlockWhole(className, kind, Flatten(groups), blankAfter);
    Regrouped(old(w.lines), ClassOpening(className), RenderAll(Unique(kind, Flatten(groups)).value), ClassClosing(blankAfter));
    return true;
  }

  method WriteAudioMixerParams(w: Writer, mixers: seq<seq<string>>) returns (completed: bool)
    modifies w
    ensures w.lines == old(w.lines) + MixersBlock(mixers).lines
    ensures completed == MixersBlock(mixers).completed
  {
    completed := WriteAssetParams(w, "AudioMixerParams", MixerParam, mixers, true);
  }

  /** The last block, closed without a blank line after it. */
  method WriteAnimatorParams(w: Writer, animators: seq<seq<string>>) returns (completed: bool)
    modifies w
    ensures w.lines == old(w.lines) + AnimatorsBlock(animators).lines
    ensures completed == AnimatorsBlock(animators).completed
  {
    completed := WriteAssetParams(w, "AnimatorParams", AnimatorParam, animators, false);
  }

  /** The comment line, a blank line, and the opening of the namespace. */
  method WriteHeader(w: Writer)
    modifies w
    ensures w.lines == old(w.lines) + HEADER
  {
    w.WriteLine("// This file is auto-generated. Modifications are not saved.");
    w.WriteLine("");
    w.WriteLine("namespace UnityConstants");
    w.WriteLine("{");
  }

  /** The end of the namespace, and a blank line. */
  method WriteFooter(w: Writer)
    modifies w
    ensures w.lines == old(w.lines) + FOOTER
  {
    w.WriteLine("}");
    w.WriteLine("");
  }

  datatype Option<T> = None | Some(value: T)

  /** How a run of the menu command ends: cancelled in the folder dialog, or
      a file written at a path; the asset database is refreshed only when
      the writing got to its end. */
  datatype Run = Cancelled | Written(path: string, lines: seq<string>, refreshed: bool)

  /** Where the file goes: the existing file if the project has one, else
      the fixed file name in the chosen folder; no folder chosen means no
      file. */
  function TargetPath(p: Platform, existingFile: Option<string>, chosenFolder: string): (target: Option<string>)
    ensures existingFile.Some? ==> target == existingFile
    ensures existingFile.None? ==> (target.None? <==> chosenFolder == "")
    ensures existingFile.None? && target.Some? ==>
      && chosenFolder < target.value
      && (IsSeparator(p, chosenFolder[|chosenFolder| - 1]) ==>
            target.value[|chosenFolder|..] == OUTPUT_FILE_NAME)
      && (!IsSeparator(p, chosenFolder[|chosenFolder| - 1]) ==>
            target.value[|chosenFolder|..] == [DirectorySeparator(p)] + OUTPUT_FILE_NAME)
      && FileName(p, target.value) == OUTPUT_FILE_NAME
      && FileNameWithoutExtension(p, target.value) == "UnityConstants"
  {
    if existingFile.Some? then existingFile
    else if chosenFolder == "" then None
    else Some(OutputPathIn(p, chosenFolder))
  }

  /** The header and the first three blocks, each written only when the one
      before it got to its end. */
  method WriteFirstBlocks(w: Writer, project: Project) returns (ok: bool)
    requires w.lines == []
    modifies w
    ensures var e := Then(Then(Then(Emission(HEADER, true), TagsBlock(project.tags)),
                               SortingLayersBlock(project.sortingLayers)), LayersBlock(project.layers));
      w.lines == e.lines && ok == e.completed
  {
    WriteHeader(w);
    assert w.lines == HEADER;
    ghost var e := Emission(HEADER, true);
    ok := WriteTags(w, project.tags);
    e := Then(e, TagsBlock(project.tags));
    assert w.lines == e.lines && ok == e.completed;
    if ok {
      ok := WriteSortingLayers(w, project.sortingLayers);
    }
    e := Then(e, SortingLayersBlock(project.sortingLayers));
    assert w.lines == e.lines && ok == e.completed;
    if ok {
      WriteLayers(w, project.layers);
    }
  }

  /** The remaining blocks and the footer, after what `WriteFirstBlocks`
      left in `w`. */
  method WriteLastBlocks(w: Writer, p: Platform, project: Project, ghost before: Emission, okBefore: bool)
    returns (ok: bool)
    requires w.lines == before.lines && okBefore == before.completed
    modifies w
    ensures var e := Then(Then(Then(Then(Then(before, ScenesBlock(p, project.scenePaths)),
                                              AxesBlock(project.axes)), MixersBlock(project.mixers)),
                               AnimatorsBlock(project.animators)), Emission(FOOTER, true));
      w.lines == e.lines && ok == e.completed
  {
    ok := okBefore;
    ghost var e := before;
    if ok {
      ok := WriteScenes(w, p, project.scenePaths);
    }
    e := Then(e, ScenesBlock(p, project.scenePaths));
    assert w.lines == e.lines && ok == e.completed;
    if ok {
      ok := WriteInputManagerAxes(w, project.axes);
    }
    e := Then(e, AxesBlock(project.axes));
    assert w.lines == e.lines && ok == e.completed;
    if ok {
      ok := WriteAudioMixerParams(w, project.mixers);
    }
    e := Then(e, MixersBlock(project.mixers));
    assert w.lines == e.lines && ok == e.completed;
    if ok {
      ok := WriteAnimatorParams(w, project.animators);
    }
    e := Then(e, AnimatorsBlock(project.animators));
    assert w.lines == e.lines && ok == e.completed;
    if ok {
      WriteFooter(w);
    }
  }

  /** The menu command. The existing file and the folder picked in the
      dialog are what the editor reports; the file holds the header, the
      blocks in their fixed order and the footer, or what was written before
      an empty name stopped it. */
  method Generate(p: Platform, existingFile: Option<string>, chosenFolder: string, project: Project)
    returns (run: Run)
    ensures TargetPath(p, existingFile, chosenFolder).None? ==> run == Cancelled
    ensures TargetPath(p, existingFile, chosenFolder).Some? ==>
      run == Written(TargetPath(p, existingFile, chosenFolder).value,
                     FileOutput(p, project).lines, FileOutput(p, project).completed)
  {
    var path: string;
    if existingFile.Some? {
      path := existingFile.value;
    } else {
      if chosenFolder == "" {
        return Cancelled;
      }
      path := OutputPathIn(p, chosenFolder);
    }
    var w := new Writer(path);
    var ok := WriteFirstBlocks(w, project);
    ghost var front := Then(Then(Then(Emission(HEADER, true), TagsBlock(project.tags)),
                                 SortingLayersBlock(project.sortingLayers)), LayersBlock(project.layers));
    ok := WriteLastBlocks(w, p, project, front, ok);
    return Written(path, w.lines, ok);
  }
}
