/** Which sources a configuration yields, field by field and in which order. */
module ConfiguredSources {
  import opened SemVer
  import opened VersionGrammar
  import opened CatalogTypes
  import opened SourceConfig

  /** The selected catalogs are built-in ones; no selection means all of them. */
  ghost predicate IsSelected(raw: FileConfig, d: Definition)
  {
    d in BuiltInCatalogs() && (raw.catalogs == [] || d.name in raw.catalogs)
  }

  lemma SelectionHolds(raw: FileConfig, definitions: seq<Definition>)
    requires IsSelection(raw.catalogs, definitions)
    ensures forall d :: d in definitions <==> IsSelected(raw, d)
  {
    BuiltInNames();
    hide BuiltInCatalogs;
    forall d ensures d in definitions <==> IsSelected(raw, d) {
      if raw.catalogs != [] && d in BuiltInCatalogs() && d.name in raw.catalogs {
        var i :| 0 <= i < |raw.catalogs| && raw.catalogs[i] == d.name;
        SameName(definitions[i], d);
      }
    }
  }

  lemma SameName(d: Definition, e: Definition)
    requires d in BuiltInCatalogs() && e in BuiltInCatalogs() && d.name == e.name
    ensures d == e
  {
    BuiltInNames();
    hide BuiltInCatalogs;
  }

  /** An explicit source, with the configuration's platform where it names none. */
  ghost predicate FromExplicit(raw: FileConfig, platform: string, s: Source)
  {
    exists e :: e in raw.sources && s.id == e.id && s.image == e.image
      && (e.platform != "" ==> s.platform == e.platform) && (e.platform == "" ==> s.platform == platform)
  }

  /** The source of one channel of one selected catalog. */
  ghost predicate FromCatalog(raw: FileConfig, platform: string, s: Source)
  {
    exists c, d :: c in raw.channels && IsSelected(raw, d)
      && s.id == d.name + "-" + c && s.image == d.image + ":" + c && s.platform == platform
  }

  /** The sources of an expanded configuration: every explicit one, and for every channel each selected
      catalog's, tagged with the channel, unless an explicit source has its identifier. */
  lemma SourcesAreConfigured(raw: FileConfig, platform: string, definitions: seq<Definition>, s: Source)
    requires Expandable(raw, platform) && IsSelection(raw.catalogs, definitions)
    ensures s in Expanded(Generated(raw.channels, definitions, platform), CompletedAll(raw.sources, platform)) <==>
      || FromExplicit(raw, platform, s)
      || (FromCatalog(raw, platform, s) && forall e :: e in raw.sources ==> e.id != s.id)
  {
    var generated, explicit := Generated(raw.channels, definitions, platform), CompletedAll(raw.sources, platform);
    SelectionIsDistinct(raw.catalogs, definitions);
    GeneratedIdsAreDistinct(raw.channels, definitions, platform);
    CompletedIdsAreUnique(raw.sources, platform);
    ExpandedHolds(generated, explicit, s);
    SelectionHolds(raw, definitions);
    ExplicitIs(raw, platform, s);
    CatalogIs(raw, platform, definitions, s);
    hide Expanded, Generated, CompletedAll, FromExplicit, FromCatalog, HasId, SourcesOk, IsSelection, GeneratedFor;
  }

  lemma ExplicitIs(raw: FileConfig, platform: string, s: Source)
    ensures s in CompletedAll(raw.sources, platform) <==> FromExplicit(raw, platform, s)
    ensures HasId(CompletedAll(raw.sources, platform), s.id) <==> exists e :: e in raw.sources && e.id == s.id
  {
    var completed := CompletedAll(raw.sources, platform);
    forall e | e in raw.sources ensures Completed(e, platform) in completed {
      var i :| 0 <= i < |raw.sources| && raw.sources[i] == e;
      assert completed[i] == Completed(e, platform);
    }
    forall t | t in completed ensures exists e :: e in raw.sources && t == Completed(e, platform) {
      var i :| 0 <= i < |completed| && completed[i] == t;
      assert raw.sources[i] in raw.sources;
    }
    hide CompletedAll;
    if FromExplicit(raw, platform, s) {
      var e :| e in raw.sources && s.id == e.id && s.image == e.image
        && (e.platform != "" ==> s.platform == e.platform) && (e.platform == "" ==> s.platform == platform);
      assert s == Completed(e, platform);
    }
    if e :| e in raw.sources && e.id == s.id { assert Completed(e, platform).id == s.id; }
  }

  lemma CatalogIs(raw: FileConfig, platform: string, definitions: seq<Definition>, s: Source)
    requires forall d :: d in definitions <==> IsSelected(raw, d)
    ensures GeneratedFor(raw.channels, definitions, platform, s) <==> FromCatalog(raw, platform, s)
  {
    hide IsSelected;
    if FromCatalog(raw, platform, s) {
      var c, d :| c in raw.channels && IsSelected(raw, d)
        && s.id == d.name + "-" + c && s.image == d.image + ":" + c && s.platform == platform;
      assert s == SourceFor(d, c, platform);
    }
  }

  /** Channel by channel, and within a channel catalog by catalog. */
  lemma {:induction false} GeneratedInOrder(channels: seq<string>, definitions: seq<Definition>, platform: string, i: nat, j: nat)
    requires i < |channels| && j < |definitions|
    ensures 0 <= i * |definitions| + j < |Generated(channels, definitions, platform)| == |channels| * |definitions|
    ensures var s := Generated(channels, definitions, platform)[i * |definitions| + j];
      s == Source(definitions[j].name + "-" + channels[i], definitions[j].image + ":" + channels[i], platform)
  {
    var n, k := |channels| - 1, |definitions|;
    var before := Generated(channels[..n], definitions, platform);
    GeneratedLength(channels[..n], definitions, platform);
    assert n * k + k == |channels| * k;
    if i < n {
      GeneratedInOrder(channels[..n], definitions, platform, i, j);
    } else {
      assert Generated(channels, definitions, platform)[n * k + j] == ForChannel(channels[n], definitions, platform)[j];
    }
  }

  lemma {:induction false} GeneratedLength(channels: seq<string>, definitions: seq<Definition>, platform: string)
    ensures |Generated(channels, definitions, platform)| == |channels| * |definitions|
  {
    if channels != [] {
      var n := |channels| - 1;
      GeneratedLength(channels[..n], definitions, platform);
      assert n * |definitions| + |definitions| == |channels| * |definitions|;
    }
  }

  /** The built-in catalogs, each once. */
  lemma TheBuiltInCatalogs(d: Definition)
    ensures IsSelected(FileConfig([], [], []), d) <==>
      || d == Definition("redhat", "registry.redhat.io/redhat/redhat-operator-index")
      || d == Definition("certified", "registry.redhat.io/redhat/certified-operator-index")
      || d == Definition("community", "registry.redhat.io/redhat/community-operator-index")
  {
  }

  // ---- Platforms

  /** os/architecture or os/architecture/variant, no part empty. */
  ghost predicate SpellsPlatform(parts: seq<string>, value: string)
  {
    && 2 <= |parts| <= 3 && value == Join(parts, '/')
    && forall p :: p in parts ==> p != "" && '/' !in p
  }

  ghost predicate IsPlatform(value: string)
  {
    exists parts :: SpellsPlatform(parts, value)
  }

  lemma PlatformIff(value: string)
    ensures ValidPlatform(value) <==> IsPlatform(value)
  {
    hide Split, Join;
    if ValidPlatform(value) {
      JoinOfSplit(value, '/');
      assert SpellsPlatform(Split(value, '/'), value);
    }
    forall parts | SpellsPlatform(parts, value) ensures ValidPlatform(value) {
      SplitOfJoin(parts, '/');
    }
  }

  /** An explicit source is accepted when it has an identifier, an image and, itself or from the
      configuration, a platform. */
  lemma SourceOkIff(s: Source, platform: string)
    ensures SourceOk(s, platform) <==>
      && s.id != "" && s.image != ""
      && (s.platform != "" ==> IsPlatform(s.platform)) && (s.platform == "" ==> IsPlatform(platform))
  {
    PlatformIff(s.platform);
    PlatformIff(platform);
    hide ValidPlatform, IsPlatform;
  }
}
