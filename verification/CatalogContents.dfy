/** What a built catalog holds, record by record and field by field. */
module CatalogContents {
  import opened Orders
  import opened CatalogTypes
  import opened CatalogBuild

  /** The first property of kind olm.package gives this version. */
  ghost predicate FirstVersion(properties: seq<Property>, i: nat, version: string)
  {
    && i < |properties| && properties[i] == Property("olm.package", Some(version))
    && forall k :: 0 <= k < i ==> properties[k].kind != "olm.package"
  }

  ghost predicate GivesVersion(properties: seq<Property>, version: string)
  {
    version != "" && exists i :: FirstVersion(properties, i, version)
  }

  lemma {:induction false} PackageVersionIff(properties: seq<Property>, version: string)
    ensures PackageVersion(properties) == Version(version) <==> GivesVersion(properties, version)
  {
    if properties != [] && properties[0].kind != "olm.package" {
      var rest := properties[1..];
      PackageVersionIff(rest, version);
      forall i: nat | FirstVersion(properties, i, version) ensures FirstVersion(rest, i - 1, version) {}
      forall i: nat | FirstVersion(rest, i, version) ensures FirstVersion(properties, i + 1, version) {}
    } else if properties != [] {
      assert FirstVersion(properties, 0, version) <==> properties[0].version == Some(version);
      assert forall i: nat :: FirstVersion(properties, i, version) ==> i == 0;
    }
  }

  /** A record is fit to be added when it is named, with its package, and a bundle's first olm.package
      property gives a version. */
  ghost predicate Fit(r: Record)
  {
    match r
    case PackageRecord(name, _) => name != ""
    case ChannelRecord(owner, name, _) => owner != "" && name != ""
    case BundleRecord(owner, name, _, properties) => owner != "" && name != "" && exists v :: GivesVersion(properties, v)
    case Unknown => true
    case _ => false
  }

  lemma FaultlessIffFit(records: seq<Record>)
    ensures Faultless(records) <==> forall r :: r in records ==> Fit(r)
  {
    forall r ensures Fault(r).None? <==> Fit(r) {
      hide PackageVersion, GivesVersion;
      if r.BundleRecord? {
        var version := PackageVersion(r.properties);
        forall v ensures version == Version(v) <==> GivesVersion(r.properties, v) {
          PackageVersionIff(r.properties, v);
        }
        if version.Version? { assert GivesVersion(r.properties, version.version); }
      }
    }
    hide Fault, Fit;
  }

  /** A package record's default channel, a channel record's entries in their order, and a bundle
      record's image and version. */
  ghost predicate Holds(packages: Packages, r: Record)
  {
    match r
    case PackageRecord(name, defaultChannel) => name in packages && packages[name].defaultChannel == defaultChannel
    case ChannelRecord(owner, name, entries) =>
      && owner in packages && name in packages[owner].channels
      && packages[owner].channels[name] == Channel(name, entries, false)
    case BundleRecord(owner, name, image, properties) =>
      && owner in packages && name in packages[owner].bundles
      && (var b := packages[owner].bundles[name];
          b.name == name && b.image == image && !b.deprecated && GivesVersion(properties, b.version))
    case _ => true
  }

  lemma SaysWhatItRecords(packages: Packages, records: seq<Record>, r: Record)
    requires Faultless(records) && Represents(packages, records) && r in records
    ensures Holds(packages, r)
  {
    hide PackageVersion, GivesVersion;
    assert Says(packages, KeyOf(r)) == FactOf(r);
    if r.BundleRecord? { PackageVersionIff(r.properties, PackageVersion(r.properties).version); }
  }

  /** Every record is in the catalog with its fields. */
  lemma RecordsAreKept(records: seq<Record>, r: Record)
    requires Faultless(records) && Consistent(records) && r in records
    ensures Holds(Build(records), r)
  {
    BuildRepresents(records);
    SaysWhatItRecords(Build(records), records, r);
  }

  /** And the catalog holds nothing else: every channel, bundle and default channel is some record's. */
  lemma NothingIsInvented(records: seq<Record>, n: string)
    requires Faultless(records) && Consistent(records) && n in Build(records)
    ensures var p := Build(records)[n];
      && p.name == n
      && (p.defaultChannel != "" ==> PackageRecord(n, p.defaultChannel) in records)
      && (forall c :: c in p.channels ==> ChannelRecord(n, c, p.channels[c].entries) in records)
      && (forall b :: b in p.bundles ==>
            exists r :: r in records && r.BundleRecord? && r.owner == n && r.name == b && r.image == p.bundles[b].image)
  {
    BuildRepresents(records);
    FromRecords(Build(records), records, n);
    hide Build;
  }

  lemma FromRecords(packages: Packages, records: seq<Record>, n: string)
    requires Faultless(records) && Represents(packages, records) && n in packages
    ensures var p := packages[n];
      && p.name == n
      && (p.defaultChannel != "" ==> PackageRecord(n, p.defaultChannel) in records)
      && (forall c :: c in p.channels ==> ChannelRecord(n, c, p.channels[c].entries) in records)
      && (forall b :: b in p.bundles ==>
            exists r :: r in records && r.BundleRecord? && r.owner == n && r.name == b && r.image == p.bundles[b].image)
  {
    hide PackageVersion;
    var p := packages[n];
    if p.defaultChannel != "" {
      var r := RecordOf(packages, records, RecordKey(OfPackage, n, ""));
    }
    forall c | c in p.channels ensures ChannelRecord(n, c, p.channels[c].entries) in records {
      var r := RecordOf(packages, records, RecordKey(OfChannel, n, c));
    }
    forall b | b in p.bundles
      ensures exists r :: r in records && r.BundleRecord? && r.owner == n && r.name == b && r.image == p.bundles[b].image
    {
      var r := RecordOf(packages, records, RecordKey(OfBundle, n, b));
      assert r in records && r.BundleRecord?;
    }
  }

  lemma RecordOf(packages: Packages, records: seq<Record>, k: RecordKey) returns (r: Record)
    requires Faultless(records) && Represents(packages, records)
    requires k.owner in packages && Shaped(k) && Says(packages, k) != Default(k)
    ensures r in records && Fault(r).None? && KeyOf(r) == k && Says(packages, k) == FactOf(r)
  {
    hide Says, Default, FactOf, Fault;
    assert HasKey(records, k);
    r :| r in records && KeyOf(r) == k;
  }
}
