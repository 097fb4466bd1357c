/** Expanding a configuration into catalog sources: one per channel and built-in catalog, then
    the explicit ones, which replace a generated source in place or are appended. */
module SourceConfig {
  import opened Orders
  import opened SemVer
  import opened CatalogTypes
  import opened SourceIDs

  datatype Definition = Definition(name: string, image: string)

  /** Channels are canonical already: decoding refuses or rewrites them. */
  datatype FileConfig = FileConfig(channels: seq<string>, catalogs: seq<string>, sources: seq<Source>)

  datatype ConfigError =
    | NothingConfigured
    | CatalogsWithoutChannel
    | DuplicateChannel(channel: string)
    | DuplicateCatalog(catalog: string)
    | UnknownCatalog(catalog: string)
    | SourceIncomplete
    | DuplicateSource(id: string)
    | InvalidPlatform(id: string)

  datatype Result<+T> = Ok(value: T) | Err(error: ConfigError)

  function BuiltInCatalogs(): seq<Definition>
  {
    [Definition("redhat", "registry.redhat.io/redhat/redhat-operator-index"),
     Definition("certified", "registry.redhat.io/redhat/certified-operator-index"),
     Definition("community", "registry.redhat.io/redhat/community-operator-index")]
  }

  // ---- Catalogs

  predicate IsBuiltIn(name: string)
  {
    exists d :: d in BuiltInCatalogs() && d.name == name
  }

  /** The built-in catalogs of these names, or all of them. */
  ghost predicate IsSelection(names: seq<string>, selected: seq<Definition>)
  {
    if names == [] then selected == BuiltInCatalogs()
    else
      && |selected| == |names|
      && forall i :: 0 <= i < |names| ==> selected[i] in BuiltInCatalogs() && selected[i].name == names[i]
  }

  ghost predicate CatalogFault(names: seq<string>, error: ConfigError)
  {
    exists i :: 0 <= i < |names|
      && Distinct(names[..i]) && (forall k :: 0 <= k < i ==> IsBuiltIn(names[k]))
      && error == (if names[i] in names[..i] then DuplicateCatalog(names[i]) else UnknownCatalog(names[i]))
      && (names[i] in names[..i] || !IsBuiltIn(names[i]))
  }

  method CatalogsByName() returns (byName: map<string, Definition>)
    ensures forall n :: n in byName <==> IsBuiltIn(n)
    ensures forall n :: n in byName ==> byName[n] in BuiltInCatalogs() && byName[n].name == n
  {
    var builtIn := BuiltInCatalogs();
    byName := map[];
    for i := 0 to |builtIn|
      invariant forall n :: n in byName ==> byName[n] in builtIn && byName[n].name == n
      invariant forall k :: 0 <= k < i ==> builtIn[k].name in byName
    {
      byName := byName[builtIn[i].name := builtIn[i]];
    }
  }

  method SelectCatalogs(names: seq<string>) returns (r: Result<seq<Definition>>)
    ensures r.Ok? <==> Distinct(names) && forall n :: n in names ==> IsBuiltIn(n)
    ensures r.Ok? ==> IsSelection(names, r.value)
    ensures r.Err? ==> CatalogFault(names, r.error)
  {
    hide BuiltInCatalogs, IsBuiltIn;
    var builtIn := BuiltInCatalogs();
    if names == [] { return Ok(builtIn); }
    var byName := CatalogsByName();
    var seen: set<string> := {};
    var selected: seq<Definition> := [];
    for i := 0 to |names|
      invariant seen == Elements(names[..i]) && Distinct(names[..i]) && |selected| == i
      invariant forall k :: 0 <= k < i ==> IsBuiltIn(names[k])
      invariant forall k :: 0 <= k < i ==> selected[k] in builtIn && selected[k].name == names[k]
    {
      var name := names[i];
      assert names[i] in names;
      if name in seen {
        assert names[i] in names[..i];
        return Err(DuplicateCatalog(name));
      }
      if name !in byName { return Err(UnknownCatalog(name)); }
      assert names[..i + 1] == names[..i] + [name];
      seen, selected := seen + {name}, selected + [byName[name]];
    }
    assert names[..|names|] == names;
    r := Ok(selected);
  }

  // ---- Generated sources

  function SourceFor(d: Definition, channel: string, platform: string): Source
  {
    Source(d.name + "-" + channel, d.image + ":" + channel, platform)
  }

  /** Channel by channel, every selected catalog. */
  function Generated(channels: seq<string>, definitions: seq<Definition>, platform: string): seq<Source>
  {
    if channels == [] then []
    else
      var n := |channels| - 1;
      Generated(channels[..n], definitions, platform) + ForChannel(channels[n], definitions, platform)
  }

  function ForChannel(channel: string, definitions: seq<Definition>, platform: string): (sources: seq<Source>)
    ensures |sources| == |definitions|
  {
    seq(|definitions|, i requires 0 <= i < |definitions| => SourceFor(definitions[i], channel, platform))
  }

  /** A catalog name has no hyphen, so an identifier splits back at its first one. */
  lemma SourceIDSplits(a: string, c: string, b: string, d: string)
    requires '-' !in a && '-' !in b && a + "-" + c == b + "-" + d
    ensures a == b && c == d
  {
    hide IndexOf;
    var s, t := a + "-" + c, b + "-" + d;
    IndexOfSeparator(a, '-', c);
    IndexOfSeparator(b, '-', d);
    assert s[..|a|] == a && s[|a| + 1..] == c && t[..|b|] == b && t[|b| + 1..] == d;
  }

  ghost predicate DistinctDefinitions(definitions: seq<Definition>)
  {
    && (forall i, j :: 0 <= i < j < |definitions| ==> definitions[i].name != definitions[j].name)
    && (forall i :: 0 <= i < |definitions| ==> '-' !in definitions[i].name)
  }

  ghost predicate GeneratedFor(channels: seq<string>, definitions: seq<Definition>, platform: string, s: Source)
  {
    exists c, d :: c in channels && d in definitions && s == SourceFor(d, c, platform)
  }

  /** Distinct channels and catalogs give distinct identifiers, one for each pair. */
  lemma {:induction false} GeneratedIdsAreDistinct(channels: seq<string>, definitions: seq<Definition>, platform: string)
    requires Distinct(channels) && DistinctDefinitions(definitions)
    ensures UniqueIds(Generated(channels, definitions, platform))
    ensures forall s :: s in Generated(channels, definitions, platform) <==> GeneratedFor(channels, definitions, platform, s)
  {
    hide SourceFor;
    if channels != [] {
      var n := |channels| - 1;
      var before, last := Generated(channels[..n], definitions, platform), ForChannel(channels[n], definitions, platform);
      GeneratedIdsAreDistinct(channels[..n], definitions, platform);
      ForChannelIds(channels[n], definitions, platform);
      forall s, t | s in before && t in last ensures s.id != t.id {
        var c, d :| c in channels[..n] && d in definitions && s == SourceFor(d, c, platform);
        var e :| e in definitions && t == SourceFor(e, channels[n], platform);
        DifferentChannels(d, c, e, channels[n], platform);
      }
      assert Generated(channels, definitions, platform) == before + last;
      forall s ensures s in before + last <==> GeneratedFor(channels, definitions, platform, s) {
        assert s in before + last <==> s in before || s in last;
        assert forall c :: c in channels <==> c in channels[..n] || c == channels[n];
      }
      UniqueConcat(before, last);
    }
  }

  lemma DifferentChannels(d: Definition, c: string, e: Definition, f: string, platform: string)
    requires '-' !in d.name && '-' !in e.name && (c != f || d.name != e.name)
    ensures SourceFor(d, c, platform).id != SourceFor(e, f, platform).id
  {
    if SourceFor(d, c, platform).id == SourceFor(e, f, platform).id { SourceIDSplits(d.name, c, e.name, f); }
  }

  lemma ForChannelIds(channel: string, definitions: seq<Definition>, platform: string)
    requires DistinctDefinitions(definitions)
    ensures UniqueIds(ForChannel(channel, definitions, platform))
    ensures forall s :: s in ForChannel(channel, definitions, platform) <==>
      exists d :: d in definitions && s == SourceFor(d, channel, platform)
  {
    hide SourceFor;
    var sources := ForChannel(channel, definitions, platform);
    forall i, j | 0 <= i < j < |sources| ensures sources[i].id != sources[j].id {
      DifferentChannels(definitions[i], channel, definitions[j], channel, platform);
    }
    forall d | d in definitions ensures SourceFor(d, channel, platform) in sources {
      var i :| 0 <= i < |definitions| && definitions[i] == d;
      assert sources[i] == SourceFor(d, channel, platform);
    }
  }

  lemma UniqueConcat(a: seq<Source>, b: seq<Source>)
    requires UniqueIds(a) && UniqueIds(b) && forall s, t :: s in a && t in b ==> s.id != t.id
    ensures UniqueIds(a + b)
  {
    var all := a + b;
    forall i, j | 0 <= i < j < |all| ensures all[i].id != all[j].id {
      if i < |a| <= j { assert all[i] in a && all[j] in b; }
    }
  }

  lemma BuiltInNames()
    ensures DistinctDefinitions(BuiltInCatalogs())
  {
    var names := ["redhat", "certified", "community"];
    assert names[0][0] == 'r' && names[1][0] == 'c' && names[2][0] == 'c' && names[1][1] == 'e' && names[2][1] == 'o';
    assert forall i :: 0 <= i < 3 ==> BuiltInCatalogs()[i].name == names[i];
  }

  lemma SelectionIsDistinct(names: seq<string>, selected: seq<Definition>)
    requires Distinct(names) && IsSelection(names, selected)
    ensures DistinctDefinitions(selected)
  {
    BuiltInNames();
    hide BuiltInCatalogs;
  }

  /** Every generated source is addressable by catalog name and version, with or without "v". */
  lemma GeneratedSourcesAreAddressable(d: Definition, value: string, platform: string)
    requires d in BuiltInCatalogs() && CanonicalChannel(value).Some?
    ensures var id := SourceFor(d, CanonicalChannel(value).value, platform).id;
      && CatalogSourceID(d.name, value) == Some(id)
      && CatalogReference(id) == Some(Reference(d.name, Plain(MatchVersion(value).value)))
  {
    hide MatchVersion, LastDashV, IndexOf;
    ReferenceOfSourceID(d.name, value);
    var v := Plain(MatchVersion(value).value);
    assert d.name + "-v" + v == d.name + "-" + ("v" + v);
  }

  // ---- Explicit sources

  /** catalog.ValidatePlatform: os/architecture[/variant], no part empty. */
  predicate ValidPlatform(value: string)
  {
    var parts := Split(value, '/');
    2 <= |parts| <= 3 && forall p :: p in parts ==> p != ""
  }

  function Completed(s: Source, platform: string): Source
  {
    if s.platform == "" then s.(platform := platform) else s
  }

  function CompletedAll(sources: seq<Source>, platform: string): seq<Source>
  {
    seq(|sources|, i requires 0 <= i < |sources| => Completed(sources[i], platform))
  }

  predicate SourceOk(s: Source, platform: string)
  {
    s.id != "" && s.image != "" && ValidPlatform(Completed(s, platform).platform)
  }

  ghost predicate SourcesOk(sources: seq<Source>, platform: string)
  {
    UniqueIds(sources) && forall s :: s in sources ==> SourceOk(s, platform)
  }

  /** The first faulty explicit source decides the error. */
  ghost predicate SourceFault(sources: seq<Source>, platform: string, error: ConfigError)
  {
    exists i :: 0 <= i < |sources| && SourcesOk(sources[..i], platform) && FaultOf(sources, i, platform, error)
  }

  ghost predicate FaultOf(sources: seq<Source>, i: nat, platform: string, error: ConfigError)
    requires i < |sources|
  {
    var s := sources[i];
    if s.id == "" || s.image == "" then error == SourceIncomplete
    else if exists k :: 0 <= k < i && sources[k].id == s.id then error == DuplicateSource(s.id)
    else !ValidPlatform(Completed(s, platform).platform) && error == InvalidPlatform(s.id)
  }

  /** A generated source, or the explicit one with its identifier. */
  function Chosen(generated: Source, explicit: seq<Source>): Source
  {
    if explicit == [] then generated
    else
      var n := |explicit| - 1;
      if explicit[n].id == generated.id then explicit[n] else Chosen(generated, explicit[..n])
  }

  predicate HasId(sources: seq<Source>, id: string)
  {
    exists s :: s in sources && s.id == id
  }

  /** The explicit sources whose identifiers were not generated, in their order. */
  function Additional(generated: seq<Source>, explicit: seq<Source>): seq<Source>
  {
    if explicit == [] then []
    else
      var n := |explicit| - 1;
      Additional(generated, explicit[..n]) + (if HasId(generated, explicit[n].id) then [] else [explicit[n]])
  }

  /** Generated sources in place, each replaced by its explicit namesake; then the others. */
  function Expanded(generated: seq<Source>, explicit: seq<Source>): seq<Source>
  {
    Front(generated, explicit) + Additional(generated, explicit)
  }

  function Front(generated: seq<Source>, explicit: seq<Source>): seq<Source>
  {
    seq(|generated|, i requires 0 <= i < |generated| => Chosen(generated[i], explicit))
  }

  lemma {:induction false} ChosenKeepsId(g: Source, explicit: seq<Source>)
    ensures Chosen(g, explicit).id == g.id
    ensures Chosen(g, explicit) == g || Chosen(g, explicit) in explicit
    ensures !HasId(explicit, g.id) ==> Chosen(g, explicit) == g
  {
    if explicit != [] {
      var n := |explicit| - 1;
      ChosenKeepsId(g, explicit[..n]);
      assert explicit[n] in explicit;
    }
  }

  lemma {:induction false} AdditionalIs(generated: seq<Source>, explicit: seq<Source>)
    ensures forall s :: s in Additional(generated, explicit) <==> s in explicit && !HasId(generated, s.id)
  {
    hide HasId;
    if explicit != [] {
      var n := |explicit| - 1;
      AdditionalIs(generated, explicit[..n]);
      assert forall s :: s in explicit <==> s in explicit[..n] || s == explicit[n];
    }
  }

  lemma {:induction false} AdditionalIsUnique(generated: seq<Source>, explicit: seq<Source>)
    requires UniqueIds(explicit)
    ensures UniqueIds(Additional(generated, explicit))
  {
    hide HasId;
    if explicit != [] {
      var n := |explicit| - 1;
      AdditionalIsUnique(generated, explicit[..n]);
      AdditionalIs(generated, explicit[..n]);
      forall s | s in explicit[..n] ensures s.id != explicit[n].id {
        var i :| 0 <= i < n && explicit[i] == s;
      }
      UniqueConcat(Additional(generated, explicit[..n]), if HasId(generated, explicit[n].id) then [] else [explicit[n]]);
    }
  }

  /** The expanded list names every source once. */
  lemma ExpandedIdsAreDistinct(generated: seq<Source>, explicit: seq<Source>)
    requires UniqueIds(generated) && UniqueIds(explicit)
    ensures UniqueIds(Expanded(generated, explicit))
  {
    var front := Front(generated, explicit);
    hide Chosen, Additional;
    forall i | 0 <= i < |front| ensures front[i].id == generated[i].id { ChosenKeepsId(generated[i], explicit); }
    AdditionalIs(generated, explicit);
    AdditionalIsUnique(generated, explicit);
    forall s, t | s in front && t in Additional(generated, explicit) ensures s.id != t.id {
      var i :| 0 <= i < |front| && front[i] == s;
      assert generated[i] in generated;
    }
    UniqueConcat(front, Additional(generated, explicit));
  }

  /** Explicit sources replace in place and append in order, and all of them are kept. */
  lemma ExpandedHolds(generated: seq<Source>, explicit: seq<Source>, s: Source)
    requires UniqueIds(generated) && UniqueIds(explicit)
    ensures s in Expanded(generated, explicit) <==>
      s in explicit || (s in generated && !HasId(explicit, s.id))
  {
    var front := Front(generated, explicit);
    AdditionalIs(generated, explicit);
    assert s in Expanded(generated, explicit) <==> s in front || s in Additional(generated, explicit);
    if s in front {
      var i :| 0 <= i < |front| && front[i] == s;
      ChosenKeepsId(generated[i], explicit);
      if s !in explicit { ChosenIsNamesake(generated[i], explicit); }
    }
    if s in explicit && HasId(generated, s.id) {
      var g :| g in generated && g.id == s.id;
      var i :| 0 <= i < |generated| && generated[i] == g;
      ChosenIs(g, explicit, s);
      assert front[i] == s;
    }
    if s in generated && !HasId(explicit, s.id) {
      var i :| 0 <= i < |generated| && generated[i] == s;
      ChosenKeepsId(s, explicit);
      assert front[i] == s;
    }
  }

  lemma {:induction false} ChosenIs(g: Source, explicit: seq<Source>, s: Source)
    requires UniqueIds(explicit) && s in explicit && s.id == g.id
    ensures Chosen(g, explicit) == s
  {
    var n := |explicit| - 1;
    if explicit[n] != s {
      assert s in explicit[..n];
      var i :| 0 <= i < n && explicit[i] == s;
      ChosenIs(g, explicit[..n], s);
    }
  }

  lemma {:induction false} ChosenIsNamesake(g: Source, explicit: seq<Source>)
    requires Chosen(g, explicit) !in explicit
    ensures !HasId(explicit, g.id) && Chosen(g, explicit) == g
  {
    if explicit != [] {
      var n := |explicit| - 1;
      assert explicit[n] in explicit;
      assert forall x :: x in explicit <==> x in explicit[..n] || x == explicit[n];
      ChosenIsNamesake(g, explicit[..n]);
    }
  }

  // ---- expandSources

  ghost predicate Positions(sources: seq<Source>, positions: map<string, nat>)
  {
    && (forall id :: id in positions ==> positions[id] < |sources| && sources[positions[id]].id == id)
    && (forall i :: 0 <= i < |sources| ==> sources[i].id in positions)
  }

  method GenerateSources(channels: seq<string>, definitions: seq<Definition>, platform: string)
    returns (sources: seq<Source>, positions: map<string, nat>)
    ensures sources == Generated(channels, definitions, platform) && Positions(sources, positions)
  {
    hide SourceFor;
    sources, positions := [], map[];
    for i := 0 to |channels|
      invariant sources == Generated(channels[..i], definitions, platform) && Positions(sources, positions)
    {
      assert channels[..i + 1][..i] == channels[..i];
      for j := 0 to |definitions|
        invariant sources == Generated(channels[..i], definitions, platform) + ForChannel(channels[i], definitions, platform)[..j]
        invariant Positions(sources, positions)
      {
        var source := SourceFor(definitions[j], channels[i], platform);
        positions := positions[source.id := |sources|];
        sources := sources + [source];
      }
    }
    assert channels[..|channels|] == channels;
  }

  lemma ExpandedAt(generated: seq<Source>, explicit: seq<Source>, i: nat)
    requires i < |Expanded(generated, explicit)|
    ensures i < |generated| ==> Expanded(generated, explicit)[i] == Chosen(generated[i], explicit)
    ensures i < |generated| ==> Expanded(generated, explicit)[i].id == generated[i].id
    ensures i >= |generated| ==> Expanded(generated, explicit)[i] in explicit
    ensures i >= |generated| ==> !HasId(generated, Expanded(generated, explicit)[i].id)
  {
    if i < |generated| {
      ChosenKeepsId(generated[i], explicit);
    } else {
      AdditionalIs(generated, explicit);
      assert Expanded(generated, explicit)[i] in Additional(generated, explicit);
    }
  }

  /** A source not yet explicit has a position exactly when it was generated, and it is there. */
  lemma PositionIsGenerated(generated: seq<Source>, explicit: seq<Source>, s: Source, positions: map<string, nat>)
    requires !HasId(explicit, s.id) && Positions(Expanded(generated, explicit), positions)
    ensures s.id in positions <==> HasId(generated, s.id)
    ensures s.id in positions ==> positions[s.id] < |generated| && generated[positions[s.id]].id == s.id
  {
    hide Expanded;
    if s.id in positions {
      ExpandedAt(generated, explicit, positions[s.id]);
      assert generated[positions[s.id]] in generated;
    }
    if HasId(generated, s.id) {
      var i :| 0 <= i < |generated| && generated[i].id == s.id;
      ExpandedLength(generated, explicit);
      ExpandedAt(generated, explicit, i);
    }
  }

  lemma ExpandedLength(generated: seq<Source>, explicit: seq<Source>)
    ensures |Expanded(generated, explicit)| == |generated| + |Additional(generated, explicit)|
  {}

  lemma PlaceStep(generated: seq<Source>, explicit: seq<Source>, s: Source, positions: map<string, nat>)
    requires UniqueIds(generated) && !HasId(explicit, s.id)
    requires Positions(Expanded(generated, explicit), positions)
    ensures s.id in positions ==> positions[s.id] < |Expanded(generated, explicit)|
    ensures Expanded(generated, explicit + [s])
         == if s.id in positions then Expanded(generated, explicit)[positions[s.id] := s] else Expanded(generated, explicit) + [s]
  {
    PositionIsGenerated(generated, explicit, s, positions);
    AdditionalStep(generated, explicit, s);
    FrontStep(generated, explicit, s, if s.id in positions then Some(positions[s.id]) else None);
    hide Additional, Front, HasId, Positions, UniqueIds;
    if s.id in positions {
      UpdateFront(Front(generated, explicit), Additional(generated, explicit), positions[s.id], s);
    }
  }

  lemma UpdateFront<T>(front: seq<T>, rest: seq<T>, p: nat, x: T)
    requires p < |front|
    ensures (front + rest)[p := x] == front[p := x] + rest
  {}

  lemma FrontStep(generated: seq<Source>, explicit: seq<Source>, s: Source, position: Option<nat>)
    requires UniqueIds(generated)
    requires position.Some? ==> position.value < |generated| && generated[position.value].id == s.id
    requires position.None? ==> !HasId(generated, s.id)
    ensures |Front(generated, explicit)| == |generated|
    ensures Front(generated, explicit + [s])
         == if position.Some? then Front(generated, explicit)[position.value := s] else Front(generated, explicit)
  {
    assert (explicit + [s])[..|explicit|] == explicit;
    forall i | 0 <= i < |generated| ensures generated[i].id == s.id <==> position == Some(i) {
      assert generated[i] in generated;
    }
  }

  lemma AdditionalStep(generated: seq<Source>, explicit: seq<Source>, s: Source)
    ensures Additional(generated, explicit + [s])
         == Additional(generated, explicit) + (if HasId(generated, s.id) then [] else [s])
  {
    assert (explicit + [s])[..|explicit|] == explicit;
  }

  /** The explicit sources of a configuration, applied to the generated ones. */
  method ApplyExplicit(generated: seq<Source>, positions0: map<string, nat>, explicit: seq<Source>, platform: string)
    returns (r: Result<seq<Source>>)
    requires UniqueIds(generated) && Positions(generated, positions0)
    ensures r.Ok? <==> SourcesOk(explicit, platform)
    ensures r.Ok? ==> r.value == Expanded(generated, CompletedAll(explicit, platform))
    ensures r.Err? ==> SourceFault(explicit, platform, r.error)
  {
    hide Expanded, ValidPlatform, CompletedAll, UniqueIds;
    NoSourcesOk(explicit, platform);
    var sources := generated;
    var positions: map<string, nat> := positions0;
    var seenExplicit: set<string> := {};
    NothingExplicit(generated, explicit, platform);
    for k := 0 to |explicit|
      invariant SourcesOk(explicit[..k], platform)
      invariant forall id :: id in seenExplicit <==> exists m :: 0 <= m < k && explicit[m].id == id
      invariant sources == Expanded(generated, CompletedAll(explicit[..k], platform)) && Positions(sources, positions)
    {
      var source := explicit[k];
      assert explicit[k] in explicit;
      if source.id == "" || source.image == "" { return Err(SourceIncomplete); }
      if source.id in seenExplicit {
        RepeatedIsNotUnique(explicit, k);
        return Err(DuplicateSource(source.id));
      }
      seenExplicit := seenExplicit + {source.id};
      source := Completed(source, platform);
      if !ValidPlatform(source.platform) { return Err(InvalidPlatform(source.id)); }
      CompletedStep(explicit, k, platform);
      SourcesOkStep(explicit, k, platform);
      PlaceStep(generated, CompletedAll(explicit[..k], platform), source, positions);
      if source.id in positions {
        sources := sources[positions[source.id] := source];
      } else {
        positions := positions[source.id := |sources|];
        sources := sources + [source];
      }
    }
    assert explicit[..|explicit|] == explicit;
    r := Ok(sources);
  }

  lemma NothingExplicit(generated: seq<Source>, explicit: seq<Source>, platform: string)
    ensures Expanded(generated, CompletedAll(explicit[..0], platform)) == generated
  {}

  lemma RepeatedIsNotUnique(explicit: seq<Source>, k: nat)
    requires k < |explicit| && exists m :: 0 <= m < k && explicit[m].id == explicit[k].id
    ensures !UniqueIds(explicit)
  {}

  lemma NoSourcesOk(explicit: seq<Source>, platform: string)
    ensures SourcesOk(explicit[..0], platform)
  {}

  lemma SourcesOkStep(explicit: seq<Source>, k: nat, platform: string)
    requires k < |explicit| && SourcesOk(explicit[..k], platform) && SourceOk(explicit[k], platform)
    requires forall m :: 0 <= m < k ==> explicit[m].id != explicit[k].id
    ensures SourcesOk(explicit[..k + 1], platform)
  {
    hide SourceOk;
    assert explicit[..k + 1] == explicit[..k] + [explicit[k]];
  }

  lemma CompletedStep(explicit: seq<Source>, k: nat, platform: string)
    requires k < |explicit| && UniqueIds(explicit[..k])
    requires forall m :: 0 <= m < k ==> explicit[m].id != explicit[k].id
    ensures UniqueIds(CompletedAll(explicit[..k], platform))
    ensures !HasId(CompletedAll(explicit[..k], platform), explicit[k].id)
    ensures CompletedAll(explicit[..k + 1], platform) == CompletedAll(explicit[..k], platform) + [Completed(explicit[k], platform)]
  {}

  /** What a configuration must satisfy to be expanded. */
  ghost predicate Expandable(raw: FileConfig, platform: string)
  {
    && (raw.channels != [] || (raw.sources != [] && raw.catalogs == []))
    && Distinct(raw.channels)
    && Distinct(raw.catalogs) && (forall n :: n in raw.catalogs ==> IsBuiltIn(n))
    && SourcesOk(raw.sources, platform)
  }

  ghost predicate FirstRepeated(channels: seq<string>, channel: string)
  {
    exists i :: 0 <= i < |channels| && Distinct(channels[..i]) && channels[i] in channels[..i] && channels[i] == channel
  }

  ghost predicate ExpansionFault(raw: FileConfig, platform: string, error: ConfigError)
  {
    if raw.channels == [] && raw.sources == [] then error == NothingConfigured
    else if raw.channels == [] && raw.catalogs != [] then error == CatalogsWithoutChannel
    else if !Distinct(raw.channels) then
      error.DuplicateChannel? && FirstRepeated(raw.channels, error.channel)
    else if !(Distinct(raw.catalogs) && forall n :: n in raw.catalogs ==> IsBuiltIn(n)) then CatalogFault(raw.catalogs, error)
    else SourceFault(raw.sources, platform, error)
  }

  method CheckChannels(channels: seq<string>) returns (duplicate: Option<string>)
    ensures duplicate.None? <==> Distinct(channels)
    ensures duplicate.Some? ==> FirstRepeated(channels, duplicate.value)
  {
    var seen: set<string> := {};
    for i := 0 to |channels|
      invariant seen == Elements(channels[..i]) && Distinct(channels[..i])
    {
      if channels[i] in seen {
        assert channels[i] in channels[..i];
        return Some(channels[i]);
      }
      assert channels[..i + 1] == channels[..i] + [channels[i]];
      seen := seen + {channels[i]};
    }
    assert channels[..|channels|] == channels;
    return None;
  }

  method ExpandSources(raw: FileConfig, platform: string) returns (r: Result<seq<Source>>, ghost definitions: seq<Definition>)
    ensures r.Ok? <==> Expandable(raw, platform)
    ensures r.Ok? ==> IsSelection(raw.catalogs, definitions) && UniqueIds(r.value)
    ensures r.Ok? ==>
      r.value == Expanded(Generated(raw.channels, definitions, platform), CompletedAll(raw.sources, platform))
    ensures r.Err? ==> ExpansionFault(raw, platform, r.error)
  {
    hide IsBuiltIn, SourceOk, IsSelection, Generated, Expanded, FaultOf;
    definitions := [];
    if raw.channels == [] && raw.sources == [] { return Err(NothingConfigured), definitions; }
    if raw.channels == [] && raw.catalogs != [] { return Err(CatalogsWithoutChannel), definitions; }
    var duplicate := CheckChannels(raw.channels);
    if duplicate.Some? { return Err(DuplicateChannel(duplicate.value)), definitions; }
    var selected := SelectCatalogs(raw.catalogs);
    if selected.Err? { return Err(selected.error), definitions; }
    definitions := selected.value;
    SelectionIsDistinct(raw.catalogs, definitions);
    GeneratedIdsAreDistinct(raw.channels, definitions, platform);
    var sources, positions := GenerateSources(raw.channels, selected.value, platform);
    r := ApplyExplicit(sources, positions, raw.sources, platform);
    if r.Ok? {
      CompletedIdsAreUnique(raw.sources, platform);
      ExpandedIdsAreDistinct(sources, CompletedAll(raw.sources, platform));
    }
  }

  lemma CompletedIdsAreUnique(sources: seq<Source>, platform: string)
    requires UniqueIds(sources)
    ensures UniqueIds(CompletedAll(sources, platform))
  {}
}
