/** The categories whose names pass through a set of identifiers already
    written: input axes, audio-mixer exposed parameters and animator
    parameters. A name whose identifier was written before is skipped, so the
    first name wins. For mixers and animators one set serves every asset. */
module Dedup {
  import opened Identifiers
  import opened Categories

  /** The identifiers of some constants (the contents of the source's set). */
  function IdentifierSet(cs: seq<Constant>): set<string> {
    set c | c in cs :: c.identifier
  }

  /** The identifiers of some names. */
  function IdentifiersOf(names: seq<string>): set<string>
    requires AllNamed(names)
  {
    set i | 0 <= i < |names| :: IdentifierOf(names[i])
  }

  /** The constant a string-valued category writes for a name. */
  function ConstantFor(kind: Kind, name: string): Constant
    requires name != ""
  {
    Constant(kind, IdentifierOf(name), Text(name), name)
  }

  /** One turn of the loop: sanitise the name (an empty one fails) and add a
      constant unless the set already holds its identifier. */
  function Step(kind: Kind, prior: Result<seq<Constant>>, name: string): (r: Result<seq<Constant>>)
    ensures r.Success? <==> prior.Success? && name != ""
    ensures r.Success? ==> prior.value <= r.value && |r.value| <= |prior.value| + 1
    ensures r.Success? ==> IdentifierSet(r.value) == IdentifierSet(prior.value) + {IdentifierOf(name)}
    ensures r.Success? && |r.value| > |prior.value| ==>
      IdentifierOf(name) !in IdentifierSet(prior.value) && r.value[|prior.value|] == ConstantFor(kind, name)
  {
    match prior
    case Failure(e) => Failure(e)
    case Success(cs) =>
      match MakeSafeForCode(name)
      case Failure(e) => Failure(e)
      case Success(id) =>
        if id in IdentifierSet(cs) then Success(cs)
        else
          var c := Constant(kind, id, Text(name), name);
          IdentifierSetAppend(cs, c);
          Success(cs + [c])
  }

  /** The loop with its set of seen identifiers, as a fold of Step over the
      names. */
  function Unique(kind: Kind, names: seq<string>): (r: Result<seq<Constant>>)
    ensures r.Success? <==> AllNamed(names)
  {
    if names == [] then Success([])
    else
      assert forall i :: 0 <= i < |names| - 1 ==> names[..|names| - 1][i] == names[i];
      Step(kind, Unique(kind, names[..|names| - 1]), names[|names| - 1])
  }

  /** Adding a constant adds its identifier to the set, and nothing else. */
  lemma IdentifierSetAppend(cs: seq<Constant>, c: Constant)
    ensures IdentifierSet(cs + [c]) == IdentifierSet(cs) + {c.identifier}
  {
    forall x | x in IdentifierSet(cs + [c])
      ensures x in IdentifierSet(cs) + {c.identifier}
    {
      var d :| d in cs + [c] && x == d.identifier;
      if d != c { assert d in cs; }
    }
  }

  /** The identifiers written are exactly the identifiers of the names: none
      is lost and none is invented. */
  lemma {:induction false} UniqueCoversEveryName(kind: Kind, names: seq<string>)
    requires AllNamed(names)
    ensures IdentifierSet(Unique(kind, names).value) == IdentifiersOf(names)
  {
    if names != [] {
      var n := |names| - 1;
      var init := names[..n];
      assert AllNamed(init);
      UniqueCoversEveryName(kind, init);
      IdentifiersOfSnoc(names);
      var cs := Unique(kind, init).value;
      var id := IdentifierOf(names[n]);
      if id !in IdentifierSet(cs) {
        IdentifierSetAppend(cs, Constant(kind, id, Text(names[n]), names[n]));
      }
    }
  }

  /** One more name adds its identifier to those of the names before it. */
  lemma IdentifiersOfSnoc(names: seq<string>)
    requires names != [] && AllNamed(names)
    ensures AllNamed(names[..|names| - 1])
    ensures IdentifiersOf(names) == IdentifiersOf(names[..|names| - 1]) + {IdentifierOf(names[|names| - 1])}
  {
    var n := |names| - 1;
    var init := names[..n];
    assert forall i :: 0 <= i < n ==> init[i] == names[i];
    forall x | x in IdentifiersOf(names)
      ensures x in IdentifiersOf(init) + {IdentifierOf(names[n])}
    {
      var i :| 0 <= i < |names| && x == IdentifierOf(names[i]);
      if i < n { assert x == IdentifierOf(init[i]); }
    }
  }

  /** No two constants of the block share an identifier. */
  lemma {:induction false} UniqueIdentifiersDistinct(kind: Kind, names: seq<string>)
    requires AllNamed(names)
    ensures var cs := Unique(kind, names).value;
      forall k1, k2 :: 0 <= k1 < k2 < |cs| ==> cs[k1].identifier != cs[k2].identifier
  {
    if names != [] {
      var n := |names| - 1;
      var init := names[..n];
      assert AllNamed(init);
      UniqueIdentifiersDistinct(kind, init);
      var cs := Unique(kind, init).value;
      var cs' := Unique(kind, names).value;
      var id := IdentifierOf(names[n]);
      assert Unique(kind, names) == Step(kind, Unique(kind, init), names[n]);
      assert MakeSafeForCode(names[n]) == Success(id);
      if id !in IdentifierSet(cs) {
        assert cs' == cs + [Constant(kind, id, Text(names[n]), names[n])];
        forall k1, k2 | 0 <= k1 < k2 < |cs'|
          ensures cs'[k1].identifier != cs'[k2].identifier
        {
          if k2 == |cs| {
            assert cs'[k1] == cs[k1];
            assert cs[k1] in cs;
            assert cs[k1].identifier in IdentifierSet(cs);
          } else {
            assert cs'[k1] == cs[k1] && cs'[k2] == cs[k2];
          }
        }
      }
    }
  }

  /** No name of `earlier` has the identifier of `name`. */
  predicate NoEarlierMatch(earlier: seq<string>, name: string) {
    forall i :: 0 <= i < |earlier| ==> MakeSafeForCode(earlier[i]) != MakeSafeForCode(name)
  }

  /** The name at `j` is the first whose identifier is its identifier. */
  predicate IsFirstOccurrence(names: seq<string>, j: nat)
    requires j < |names|
  {
    NoEarlierMatch(names[..j], names[j])
  }

  /** A reference definition without a set: keep, in input order, each name
      that no earlier name shares its identifier with. */
  function FirstOccurrenceConstants(kind: Kind, names: seq<string>): (r: seq<Constant>)
    requires AllNamed(names)
  {
    if names == [] then []
    else
      var n := |names| - 1;
      assert AllNamed(names[..n]);
      FirstOccurrenceConstants(kind, names[..n])
        + if IsFirstOccurrence(names, n) then [ConstantFor(kind, names[n])] else []
  }

  /** The set-based loop writes exactly the first occurrences, in input
      order: each constant carries the first name that sanitises to its
      identifier, and its value is that name unsanitised. */
  lemma {:induction false} UniqueKeepsFirstOccurrences(kind: Kind, names: seq<string>)
    requires AllNamed(names)
    ensures Unique(kind, names) == Success(FirstOccurrenceConstants(kind, names))
  {
    if names != [] {
      var n := |names| - 1;
      var init := names[..n];
      assert AllNamed(init);
      UniqueKeepsFirstOccurrences(kind, init);
      UniqueCoversEveryName(kind, init);
      SeenUnlessFirst(names);
      var id := IdentifierOf(names[n]);
      var prev := FirstOccurrenceConstants(kind, init);
      assert Unique(kind, names) == Step(kind, Success(prev), names[n]);
      assert MakeSafeForCode(names[n]) == Success(id);
      if IsFirstOccurrence(names, n) {
        assert id !in IdentifierSet(prev);
        assert FirstOccurrenceConstants(kind, names) == prev + [ConstantFor(kind, names[n])];
      } else {
        assert id in IdentifierSet(prev);
        assert FirstOccurrenceConstants(kind, names) == prev + [];
        assert prev + [] == prev;
      }
    }
  }

  /** The last name's identifier is among those of the earlier names exactly
      when the last name is not a first occurrence. */
  lemma SeenUnlessFirst(names: seq<string>)
    requires names != [] && AllNamed(names)
    ensures var n := |names| - 1;
      AllNamed(names[..n]) &&
      (IdentifierOf(names[n]) in IdentifiersOf(names[..n]) <==> !IsFirstOccurrence(names, n))
  {
    var n := |names| - 1;
    var init := names[..n];
    assert AllNamed(init);
    var id := IdentifierOf(names[n]);
    if id in IdentifiersOf(init) {
      var i :| 0 <= i < n && id == IdentifierOf(init[i]);
      assert MakeSafeForCode(init[i]) == MakeSafeForCode(names[n]);
    }
    if !IsFirstOccurrence(names, n) {
      var i :| 0 <= i < n && MakeSafeForCode(init[i]) == MakeSafeForCode(names[n]);
      assert id == IdentifierOf(init[i]);
    }
  }

  /** Every constant written is the one for a first occurrence, and every
      first occurrence is written. */
  lemma UniqueFirstNameWins(kind: Kind, names: seq<string>)
    requires AllNamed(names)
    ensures var cs := Unique(kind, names).value;
      && (forall k :: 0 <= k < |cs| ==>
            exists j :: 0 <= j < |names| && IsFirstOccurrence(names, j) && cs[k] == ConstantFor(kind, names[j]))
      && (forall j :: 0 <= j < |names| && IsFirstOccurrence(names, j) ==> ConstantFor(kind, names[j]) in cs)
  {
    UniqueKeepsFirstOccurrences(kind, names);
    FirstOccurrencesAreFirst(kind, names);
  }

  lemma FirstOccurrencesAreFirst(kind: Kind, names: seq<string>)
    requires AllNamed(names)
    ensures var cs := FirstOccurrenceConstants(kind, names);
      && (forall k :: 0 <= k < |cs| ==>
            exists j :: 0 <= j < |names| && IsFirstOccurrence(names, j) && cs[k] == ConstantFor(kind, names[j]))
      && (forall j :: 0 <= j < |names| && IsFirstOccurrence(names, j) ==> ConstantFor(kind, names[j]) in cs)
  {
    FirstOccurrencesWritten(kind, names);
    FirstOccurrencesIncluded(kind, names);
    var cs := FirstOccurrenceConstants(kind, names);
    assert forall k :: 0 <= k < |cs| ==> ForSomeFirstOccurrence(kind, names, cs[k]);
  }

  /** Whether a name is a first occurrence does not depend on the names
      after it. */
  lemma FirstOccurrenceInPrefix(names: seq<string>, n: nat, j: nat)
    requires j < n <= |names|
    ensures names[..n][j] == names[j]
    ensures IsFirstOccurrence(names[..n], j) == IsFirstOccurrence(names, j)
  {
    assert names[..n][..j] == names[..j];
  }

  /** The constant is the one for some first occurrence among `names`. */
  predicate ForSomeFirstOccurrence(kind: Kind, names: seq<string>, c: Constant)
    requires AllNamed(names)
  {
    exists j :: 0 <= j < |names| && IsFirstOccurrence(names, j) && c == ConstantFor(kind, names[j])
  }

  lemma {:induction false} FirstOccurrencesWritten(kind: Kind, names: seq<string>)
    requires AllNamed(names)
    ensures forall k :: 0 <= k < |FirstOccurrenceConstants(kind, names)| ==>
      ForSomeFirstOccurrence(kind, names, FirstOccurrenceConstants(kind, names)[k])
  {
    if names != [] {
      var n := |names| - 1;
      var init := names[..n];
      assert AllNamed(init);
      FirstOccurrencesWritten(kind, init);
      var prev := FirstOccurrenceConstants(kind, init);
      var cs := FirstOccurrenceConstants(kind, names);
      assert cs == prev + if IsFirstOccurrence(names, n) then [ConstantFor(kind, names[n])] else [];
      forall k | 0 <= k < |cs|
        ensures ForSomeFirstOccurrence(kind, names, cs[k])
      {
        if k < |prev| {
          assert ForSomeFirstOccurrence(kind, init, prev[k]);
          var j :| 0 <= j < n && IsFirstOccurrence(init, j) && prev[k] == ConstantFor(kind, init[j]);
          FirstOccurrenceInPrefix(names, n, j);
          assert cs[k] == prev[k];
        } else {
          assert cs[k] == ConstantFor(kind, names[n]);
        }
      }
    }
  }

  lemma {:induction false} FirstOccurrencesIncluded(kind: Kind, names: seq<string>)
    requires AllNamed(names)
    ensures forall j :: 0 <= j < |names| && IsFirstOccurrence(names, j) ==>
      ConstantFor(kind, names[j]) in FirstOccurrenceConstants(kind, names)
  {
    if names != [] {
      var n := |names| - 1;
      var init := names[..n];
      assert AllNamed(init);
      FirstOccurrencesIncluded(kind, init);
      var prev := FirstOccurrenceConstants(kind, init);
      var cs := FirstOccurrenceConstants(kind, names);
      assert cs == prev + if IsFirstOccurrence(names, n) then [ConstantFor(kind, names[n])] else [];
      forall j | 0 <= j < |names| && IsFirstOccurrence(names, j)
        ensures ConstantFor(kind, names[j]) in cs
      {
        if j < n {
          FirstOccurrenceInPrefix(names, n, j);
          assert ConstantFor(kind, init[j]) in prev;
        }
      }
    }
  }

  /** Removing a name whose identifier an earlier name already produced
      changes nothing: that name is dropped. */
  lemma UniqueDropsLaterDuplicate(kind: Kind, names: seq<string>, i: nat, j: nat)
    requires i < j < |names|
    requires names[i] != "" && MakeSafeForCode(names[i]) == MakeSafeForCode(names[j])
    ensures Unique(kind, names) == Unique(kind, names[..j] + names[j + 1..])
  {
    var prefix := names[..j];
    assert names == prefix + [names[j]] + names[j + 1..];
    UniqueSkipsSeen(kind, prefix, i, names[j], names[j + 1..]);
  }

  lemma {:induction false} UniqueSkipsSeen(kind: Kind, prefix: seq<string>, i: nat, x: string, suffix: seq<string>)
    requires i < |prefix| && prefix[i] != "" && MakeSafeForCode(prefix[i]) == MakeSafeForCode(x)
    ensures Unique(kind, prefix + [x] + suffix) == Unique(kind, prefix + suffix)
    decreases |suffix|
  {
    if suffix == [] {
      assert prefix + [x] + suffix == prefix + [x];
      assert prefix + suffix == prefix;
      UniqueSnoc(kind, prefix, x);
      var r := Unique(kind, prefix);
      if r.Success? {
        UniqueCoversEveryName(kind, prefix);
        assert IdentifierOf(x) == IdentifierOf(prefix[i]);
        assert IdentifierOf(x) in IdentifiersOf(prefix);
      }
    } else {
      var m := |suffix| - 1;
      var last := suffix[m];
      UniqueSkipsSeen(kind, prefix, i, x, suffix[..m]);
      assert prefix + [x] + suffix == (prefix + [x] + suffix[..m]) + [last];
      assert prefix + suffix == (prefix + suffix[..m]) + [last];
      UniqueSnoc(kind, prefix + [x] + suffix[..m], last);
      UniqueSnoc(kind, prefix + suffix[..m], last);
    }
  }

  /** One more name is one more step of the loop. */
  lemma UniqueSnoc(kind: Kind, init: seq<string>, name: string)
    ensures Unique(kind, init + [name]) == Step(kind, Unique(kind, init), name)
  {
    assert (init + [name])[..|init|] == init;
  }

  /** Every asset lists only non-empty names. */
  predicate EveryGroupNamed(groups: seq<seq<string>>) {
    forall a :: 0 <= a < |groups| ==> AllNamed(groups[a])
  }

  /** The names of several assets in asset order, one set of seen
      identifiers for all of them. */
  function Flatten(groups: seq<seq<string>>): (names: seq<string>)
    ensures AllNamed(names) <==> EveryGroupNamed(groups)
  {
    if groups == [] then []
    else
      var n := |groups| - 1;
      var init := Flatten(groups[..n]);
      assert forall a :: 0 <= a < n ==> groups[..n][a] == groups[a];
      var names := init + groups[n];
      assert forall i :: 0 <= i < |init| ==> names[i] == init[i];
      assert forall i :: 0 <= i < |groups[n]| ==> names[|init| + i] == groups[n][i];
      names
  }

  lemma {:induction false} FlattenAppend(a: seq<seq<string>>, b: seq<seq<string>>)
    ensures Flatten(a + b) == Flatten(a) + Flatten(b)
    decreases |b|
  {
    if b == [] {
      assert a + b == a;
    } else {
      var m := |b| - 1;
      var ab := a + b;
      assert ab[..|ab| - 1] == a + b[..m];
      assert ab[|ab| - 1] == b[m];
      FlattenAppend(a, b[..m]);
      calc {
        Flatten(ab);
        Flatten(a + b[..m]) + b[m];
        Flatten(a) + Flatten(b[..m]) + b[m];
        Flatten(a) + (Flatten(b[..m]) + b[m]);
        Flatten(a) + Flatten(b);
      }
    }
  }

  lemma {:induction false} FlattenIndex(groups: seq<seq<string>>, a: nat, q: nat) returns (i: nat)
    requires a < |groups| && q < |groups[a]|
    ensures i < |Flatten(groups)| && Flatten(groups)[i] == groups[a][q]
  {
    var n := |groups| - 1;
    if a == n {
      i := |Flatten(groups[..n])| + q;
    } else {
      i := FlattenIndex(groups[..n], a, q);
    }
  }

  /** The names of the assets with the one at `b` replaced by `g`. */
  lemma FlattenAround(groups: seq<seq<string>>, b: nat, g: seq<string>)
    requires b < |groups|
    ensures Flatten(groups[b := g]) == Flatten(groups[..b]) + g + Flatten(groups[b + 1..])
  {
    assert groups[b := g] == groups[..b] + [g] + groups[b + 1..];
    FlattenAppend(groups[..b] + [g], groups[b + 1..]);
    FlattenAppend(groups[..b], [g]);
    assert Flatten([g]) == g by { assert [g][..0] == []; }
  }

  /** For mixers and animators the set spans all assets: a name in a later
      asset whose identifier an earlier asset produced is dropped, so the
      block is the same as if that asset did not list it. */
  lemma UniqueAcrossAssets(kind: Kind, groups: seq<seq<string>>, a: nat, q: nat, b: nat, p: nat)
    requires a < b < |groups| && q < |groups[a]| && p < |groups[b]|
    requires groups[a][q] != "" && MakeSafeForCode(groups[a][q]) == MakeSafeForCode(groups[b][p])
    ensures Unique(kind, Flatten(groups))
         == Unique(kind, Flatten(groups[b := groups[b][..p] + groups[b][p + 1..]]))
  {
    var before, after := groups[..b], groups[b + 1..];
    var reduced := groups[b][..p] + groups[b][p + 1..];
    FlattenAround(groups, b, groups[b]);
    assert groups[b := groups[b]] == groups;
    FlattenAround(groups, b, reduced);
    var i := FlattenIndex(before, a, q);
    var x, g, y := Flatten(before), groups[b], Flatten(after);
    SplitAround(x, g, y, p);
    assert (x + g[..p])[i] == x[i];
    UniqueSkipsSeen(kind, x + g[..p], i, g[p], g[p + 1..] + y);
  }

  /** `x + g + y` cut around the element at `p` of `g`, with and without
      that element. */
  lemma SplitAround(x: seq<string>, g: seq<string>, y: seq<string>, p: nat)
    requires p < |g|
    ensures x + g + y == (x + g[..p]) + [g[p]] + (g[p + 1..] + y)
    ensures x + (g[..p] + g[p + 1..]) + y == (x + g[..p]) + (g[p + 1..] + y)
  {
    assert g == g[..p] + [g[p]] + g[p + 1..];
  }

  /** Two mixers that both expose `Volume` give one `Volume` constant. */
  lemma SharedMixerParameterWrittenOnce()
    ensures Unique(MixerParam, Flatten([["Volume"], ["Volume"]]))
         == Success([Constant(MixerParam, "Volume", Text("Volume"), "Volume")])
  {
    var groups := [["Volume"], ["Volume"]];
    assert groups[..1][..0] == [];
    assert Flatten(groups) == ["Volume", "Volume"];
    SafeIdentifiersAreFixedPoints("Volume");
    var names := ["Volume", "Volume"];
    assert names[..1] == ["Volume"];
    assert names[..1][..0] == [];
    var c := Constant(MixerParam, "Volume", Text("Volume"), "Volume");
    assert Unique(MixerParam, ["Volume"]) == Step(MixerParam, Unique(MixerParam, []), "Volume");
    assert [] + [c] == [c];
    assert Unique(MixerParam, ["Volume"]) == Success([c]);
    assert c in [c];
    assert "Volume" in IdentifierSet([c]);
  }
}
