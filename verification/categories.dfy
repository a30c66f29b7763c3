/** The constants each category of project metadata contributes to the
    generated file, as values: which constants, in which order, with which
    identifiers, values and original names. The text they are written as is
    the business of the Rendering module. */
module Categories {
  import opened Identifiers
  import opened Paths

  /** The kind of a constant decides the wording of its documentation line. */
  datatype Kind =
    | Tag | SortingLayer | LayerIndex | LayerMask | Scene
    | Axis | MixerParam | AnimatorParam

  /** A constant's value: a string literal, an integer literal, or the
      literal shift `1 << bit` written for layer masks. */
  datatype Value = Text(text: string) | Number(number: int) | Shift(bit: nat)

  /** One emitted constant: its identifier, its value and the unsanitised
      name its documentation comment quotes. */
  datatype Constant = Constant(kind: Kind, identifier: string, value: Value, name: string)

  /** A raw entry of a category that is listed without deduplication. */
  datatype Entry = Entry(name: string, value: Value)

  /** A sorting layer as the project reports it. */
  datatype SortingLayerInfo = SortingLayerInfo(name: string, id: int)

  predicate AllNamed(names: seq<string>) {
    forall i :: 0 <= i < |names| ==> names[i] != ""
  }

  /** The position of the first empty name, or the length when there is none:
      the entry on which MakeSafeForCode fails. */
  function FirstUnnamed(names: seq<string>): (j: nat)
    ensures j <= |names| && AllNamed(names[..j])
    ensures j < |names| ==> names[j] == ""
  {
    if names == [] then 0
    else
      var j := FirstUnnamed(names[..|names| - 1]);
      if j < |names| - 1 then j
      else if names[|names| - 1] == "" then |names| - 1
      else |names|
  }

  function Names(entries: seq<Entry>): (names: seq<string>)
    ensures |names| == |entries|
    ensures forall i :: 0 <= i < |entries| ==> names[i] == entries[i].name
  {
    seq(|entries|, i requires 0 <= i < |entries| => entries[i].name)
  }

  /** The identifier the generator derives from a name it has checked. */
  function IdentifierOf(name: string): string
    requires name != ""
  {
    MakeSafeForCode(name).value
  }

  /** One constant per entry, in entry order, without deduplication; fails
      when some entry has an empty name. */
  function Listed(kind: Kind, entries: seq<Entry>): (r: Result<seq<Constant>>)
    ensures r.Success? <==> forall i :: 0 <= i < |entries| ==> entries[i].name != ""
    ensures r.Failure? ==> r.error == IndexOutOfRange
    ensures r.Success? ==>
      && |r.value| == |entries|
      && forall i :: 0 <= i < |entries| ==>
           r.value[i] == Constant(kind, IdentifierOf(entries[i].name), entries[i].value, entries[i].name)
  {
    if entries == [] then Success([])
    else
      var last := entries[|entries| - 1];
      match Listed(kind, entries[..|entries| - 1])
      case Failure(e) => Failure(e)
      case Success(cs) =>
        match MakeSafeForCode(last.name)
        case Failure(e) => Failure(e)
        case Success(id) =>
          var cs' := cs + [Constant(kind, id, last.value, last.name)];
          assert forall i :: 0 <= i < |cs| ==> cs'[i] == cs[i];
          Success(cs')
  }

  /** Tags: the value of each constant is the tag itself. */
  function TagEntries(tags: seq<string>): seq<Entry> {
    seq(|tags|, i requires 0 <= i < |tags| => Entry(tags[i], Text(tags[i])))
  }

  function TagConstants(tags: seq<string>): (r: Result<seq<Constant>>)
    ensures r.Success? <==> AllNamed(tags)
    ensures r.Success? ==>
      && |r.value| == |tags|
      && forall i :: 0 <= i < |tags| ==>
           && r.value[i].kind == Tag
           && r.value[i].identifier == IdentifierOf(tags[i])
           && r.value[i].value == Text(tags[i])
           && r.value[i].name == tags[i]
  {
    var entries := TagEntries(tags);
    assert forall i :: 0 <= i < |tags| ==> entries[i] == Entry(tags[i], Text(tags[i]));
    Listed(Tag, entries)
  }

  /** Sorting layers: the value of each constant is the layer's id. */
  function SortingLayerEntries(layers: seq<SortingLayerInfo>): seq<Entry> {
    seq(|layers|, i requires 0 <= i < |layers| => Entry(layers[i].name, Number(layers[i].id)))
  }

  function SortingLayerConstants(layers: seq<SortingLayerInfo>): (r: Result<seq<Constant>>)
    ensures r.Success? <==> forall i :: 0 <= i < |layers| ==> layers[i].name != ""
    ensures r.Success? ==>
      && |r.value| == |layers|
      && forall i :: 0 <= i < |layers| ==>
           && r.value[i].kind == SortingLayer
           && r.value[i].identifier == IdentifierOf(layers[i].name)
           && r.value[i].value == Number(layers[i].id)
           && r.value[i].name == layers[i].name
  {
    var entries := SortingLayerEntries(layers);
    assert forall i :: 0 <= i < |layers| ==> entries[i] == Entry(layers[i].name, Number(layers[i].id));
    Listed(SortingLayer, entries)
  }

  /** Scenes: each constant is named after the scene file's base name. */
  function SceneNames(p: Platform, paths: seq<string>): (names: seq<string>)
    ensures |names| == |paths|
  {
    seq(|paths|, i requires 0 <= i < |paths| => FileNameWithoutExtension(p, paths[i]))
  }

  /** The value of a scene constant is the scene's position in the build list. */
  function SceneEntries(names: seq<string>): seq<Entry> {
    seq(|names|, i requires 0 <= i < |names| => Entry(names[i], Number(i)))
  }

  function SceneConstants(names: seq<string>): (r: Result<seq<Constant>>)
    ensures r.Success? <==> AllNamed(names)
    ensures r.Success? ==>
      && |r.value| == |names|
      && forall i :: 0 <= i < |names| ==>
           && r.value[i].kind == Scene
           && r.value[i].identifier == IdentifierOf(names[i])
           && r.value[i].value == Number(i)
           && r.value[i].name == names[i]
  {
    var entries := SceneEntries(names);
    assert forall i :: 0 <= i < |names| ==> entries[i] == Entry(names[i], Number(i));
    Listed(Scene, entries)
  }

  /** The layer table has this many slots. */
  const LAYER_SLOTS: nat := 32

  /** The index constant of a named slot. */
  function IndexConstant(layers: seq<string>, i: nat): Constant
    requires i < |layers| && layers[i] != ""
  {
    Constant(LayerIndex, IdentifierOf(layers[i]), Number(i), layers[i])
  }

  /** The mask constant of a named slot: its identifier has `Mask` appended. */
  function MaskConstant(layers: seq<string>, i: nat): Constant
    requires i < |layers| && layers[i] != ""
  {
    Constant(LayerMask, IdentifierOf(layers[i]) + "Mask", Shift(i), layers[i])
  }

  /** The first pass over the layer table: one index constant per named
      slot, in slot order. */
  function LayerIndexConstants(layers: seq<string>): (cs: seq<Constant>)
    ensures |cs| <= |layers|
  {
    if layers == [] then []
    else
      var n := |layers| - 1;
      LayerIndexConstants(layers[..n]) + if layers[n] != "" then [IndexConstant(layers, n)] else []
  }

  /** The second pass: one mask constant per named slot, in slot order. */
  function LayerMaskConstants(layers: seq<string>): (cs: seq<Constant>)
    ensures |cs| <= |layers|
  {
    if layers == [] then []
    else
      var n := |layers| - 1;
      LayerMaskConstants(layers[..n]) + if layers[n] != "" then [MaskConstant(layers, n)] else []
  }

  /** One more slot of the first pass. */
  lemma LayerIndexStep(layers: seq<string>, i: nat)
    requires i < |layers|
    ensures LayerIndexConstants(layers[..i + 1])
      == LayerIndexConstants(layers[..i]) + if layers[i] != "" then [IndexConstant(layers, i)] else []
  {
    assert layers[..i + 1][..i] == layers[..i];
  }

  /** One more slot of the second pass. */
  lemma LayerMaskStep(layers: seq<string>, i: nat)
    requires i < |layers|
    ensures LayerMaskConstants(layers[..i + 1])
      == LayerMaskConstants(layers[..i]) + if layers[i] != "" then [MaskConstant(layers, i)] else []
  {
    assert layers[..i + 1][..i] == layers[..i];
  }

  /** `c` is the index constant of a named slot of `layers`. */
  predicate IsIndexOfNamedSlot(layers: seq<string>, c: Constant) {
    && c.value.Number? && 0 <= c.value.number < |layers|
    && layers[c.value.number] != ""
    && c == IndexConstant(layers, c.value.number)
  }

  /** The first pass emits only index constants of named slots, valued
      with their slot index, in strictly increasing slot order (so no slot
      twice). */
  lemma {:induction false} LayerIndexPassSound(layers: seq<string>)
    ensures forall k :: 0 <= k < |LayerIndexConstants(layers)| ==>
      IsIndexOfNamedSlot(layers, LayerIndexConstants(layers)[k])
    ensures forall k1, k2 :: 0 <= k1 < k2 < |LayerIndexConstants(layers)| ==>
      var c1, c2 := LayerIndexConstants(layers)[k1], LayerIndexConstants(layers)[k2];
      c1.value.Number? && c2.value.Number? && c1.value.number < c2.value.number
  {
    if layers != [] {
      var n := |layers| - 1;
      var init := layers[..n];
      LayerIndexPassSound(init);
      var prev := LayerIndexConstants(init);
      var ics := LayerIndexConstants(layers);
      assert ics == prev + if layers[n] != "" then [IndexConstant(layers, n)] else [];
      forall k | 0 <= k < |ics|
        ensures IsIndexOfNamedSlot(layers, ics[k])
      {
        if k < |prev| {
          assert ics[k] == prev[k] && IsIndexOfNamedSlot(init, prev[k]);
          var i := prev[k].value.number;
          assert init[i] == layers[i];
        }
      }
    }
  }

  /** The first pass emits a constant for every named slot. */
  lemma {:induction false} LayerIndexPassComplete(layers: seq<string>)
    ensures forall i :: 0 <= i < |layers| && layers[i] != "" ==>
      IndexConstant(layers, i) in LayerIndexConstants(layers)
  {
    if layers != [] {
      var n := |layers| - 1;
      var init := layers[..n];
      LayerIndexPassComplete(init);
      var prev := LayerIndexConstants(init);
      var ics := LayerIndexConstants(layers);
      assert ics == prev + if layers[n] != "" then [IndexConstant(layers, n)] else [];
      forall i | 0 <= i < |layers| && layers[i] != ""
        ensures IndexConstant(layers, i) in ics
      {
        if i < n {
          assert init[i] == layers[i];
          assert IndexConstant(init, i) == IndexConstant(layers, i);
        }
      }
    }
  }

  /** The second pass runs over the same slots as the first: its k-th
      constant is the mask of the k-th index constant's slot, valued
      `1 << index` and named after the sanitised layer name with `Mask`
      appended. */
  lemma {:induction false} LayerMaskPassFollowsIndexPass(layers: seq<string>)
    ensures var ics, mcs := LayerIndexConstants(layers), LayerMaskConstants(layers);
      && |mcs| == |ics|
      && forall k :: 0 <= k < |ics| ==>
           && ics[k].value.Number? && 0 <= ics[k].value.number < |layers|
           && layers[ics[k].value.number] != ""
           && mcs[k] == MaskConstant(layers, ics[k].value.number)
  {
    LayerIndexPassSound(layers);
    if layers != [] {
      var n := |layers| - 1;
      var init := layers[..n];
      LayerMaskPassFollowsIndexPass(init);
      var prevI, prevM := LayerIndexConstants(init), LayerMaskConstants(init);
      var ics, mcs := LayerIndexConstants(layers), LayerMaskConstants(layers);
      forall k | 0 <= k < |ics|
        ensures mcs[k] == MaskConstant(layers, ics[k].value.number)
      {
        if k < |prevI| {
          assert ics[k] == prevI[k] && mcs[k] == prevM[k];
          var i := prevI[k].value.number;
          assert init[i] == layers[i];
        }
      }
    }
  }

  /** Every mask identifier is a safe identifier. */
  lemma MaskIdentifiersAreSafe(layers: seq<string>)
    ensures forall k :: 0 <= k < |LayerMaskConstants(layers)| ==>
      IsSafeIdentifier(LayerMaskConstants(layers)[k].identifier)
  {
    LayerMaskPassFollowsIndexPass(layers);
    var ics, cs := LayerIndexConstants(layers), LayerMaskConstants(layers);
    forall k | 0 <= k < |cs|
      ensures IsSafeIdentifier(cs[k].identifier)
    {
      var i := ics[k].value.number;
      MakeSafeForCodeSpec(layers[i]);
      MaskSuffixKeepsIdentifierSafe(IdentifierOf(layers[i]));
    }
  }

  /** Appending `Mask` to a safe identifier gives a safe identifier. */
  lemma MaskSuffixKeepsIdentifierSafe(id: string)
    requires IsSafeIdentifier(id)
    ensures IsSafeIdentifier(id + "Mask")
  {
    var m := id + "Mask";
    forall i | 0 <= i < |m|
      ensures IsIdentChar(m[i])
    {
      if i >= |id| {
        assert m[i] == "Mask"[i - |id|];
      }
    }
  }

  /** Tags are not deduplicated: two tags that differ only in characters
      the sanitiser replaces give two constants with one identifier. */
  lemma TagsKeepCollidingIdentifiers()
    ensures TagConstants(["Enemy!", "Enemy?"]) == Success([
      Constant(Tag, "Enemy_", Text("Enemy!"), "Enemy!"),
      Constant(Tag, "Enemy_", Text("Enemy?"), "Enemy?")])
  {
    assert ReplaceDisallowed("Enemy!") == "Enemy_";
    assert ReplaceDisallowed("Enemy?") == "Enemy_";
    assert IdentifierOf("Enemy!") == "Enemy_";
    assert IdentifierOf("Enemy?") == "Enemy_";
    var tags := ["Enemy!", "Enemy?"];
    assert AllNamed(tags);
    var r := TagConstants(tags);
    assert r.value[0] == Constant(Tag, "Enemy_", Text("Enemy!"), "Enemy!");
    assert r.value[1] == Constant(Tag, "Enemy_", Text("Enemy?"), "Enemy?");
    assert r.value == [r.value[0], r.value[1]];
  }
}
