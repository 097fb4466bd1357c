/** Building a snapshot's packages from catalog records. Files are parsed concurrently and the
    callback takes a mutex, so records arrive in any order: the order in which they are added. */
module CatalogBuild {
  import opened Orders
  import opened CatalogTypes

  /** version is None when the property's value cannot be decoded. */
  datatype Property = Property(kind: string, version: Option<string>)

  /** A decoded record by schema; Undecodable is a known schema whose JSON does not decode, and
      Unknown a schema that is ignored. */
  datatype Record =
    | PackageRecord(name: string, defaultChannel: string)
    | ChannelRecord(owner: string, name: string, entries: seq<Entry>)
    | BundleRecord(owner: string, name: string, image: string, properties: seq<Property>)
    | Undecodable
    | NoSchema
    | Unknown

  datatype BuildError =
    | NotDecoded
    | SchemaMissing
    | PackageIncomplete
    | ChannelIncomplete
    | BundleIncomplete
    | PropertyNotDecoded
    | VersionEmpty
    | VersionMissing
    | NoDefaultChannel(package: string)
    | MissingBundle(package: string, channel: string, bundle: string)

  datatype VersionResult = Version(version: string) | NoVersion(error: BuildError)

  // ---- packageVersion

  /** The first olm.package property decides. */
  function PackageVersion(props: seq<Property>): VersionResult
  {
    if props == [] then NoVersion(VersionMissing)
    else if props[0].kind != "olm.package" then PackageVersion(props[1..])
    else match props[0].version
      case None => NoVersion(PropertyNotDecoded)
      case Some(v) => if v != "" then Version(v) else NoVersion(VersionEmpty)
  }

  lemma {:induction false} FirstPackageProperty(props: seq<Property>, i: nat)
    requires i < |props| && props[i].kind == "olm.package"
    requires forall k :: 0 <= k < i ==> props[k].kind != "olm.package"
    ensures PackageVersion(props) == PackageVersion([props[i]])
  {
    if i > 0 { FirstPackageProperty(props[1..], i - 1); }
  }

  lemma {:induction false} NoPackageProperty(props: seq<Property>)
    requires forall p :: p in props ==> p.kind != "olm.package"
    ensures PackageVersion(props) == NoVersion(VersionMissing)
  {
    if props != [] { NoPackageProperty(props[1..]); }
  }

  method FindPackageVersion(props: seq<Property>) returns (r: VersionResult)
    ensures r == PackageVersion(props)
    ensures r == NoVersion(VersionMissing) <==> forall p :: p in props ==> p.kind != "olm.package"
    ensures r.NoVersion? ==> r.error == VersionMissing || r.error == VersionEmpty || r.error == PropertyNotDecoded
  {
    for i := 0 to |props|
      invariant forall k :: 0 <= k < i ==> props[k].kind != "olm.package"
    {
      var p := props[i];
      if p.kind != "olm.package" { continue; }
      FirstPackageProperty(props, i);
      if p.version.None? { return NoVersion(PropertyNotDecoded); }
      if p.version.value != "" { return Version(p.version.value); }
      return NoVersion(VersionEmpty);
    }
    NoPackageProperty(props);
    return NoVersion(VersionMissing);
  }

  // ---- One record

  /** Why a record is refused; it depends on the record alone. */
  function Fault(r: Record): Option<BuildError>
  {
    match r
    case PackageRecord(name, _) => if name == "" then Some(PackageIncomplete) else None
    case ChannelRecord(owner, name, _) => if owner == "" || name == "" then Some(ChannelIncomplete) else None
    case BundleRecord(owner, name, _, properties) =>
      if owner == "" || name == "" then Some(BundleIncomplete)
      else if PackageVersion(properties).NoVersion? then Some(PackageVersion(properties).error)
      else None
    case Undecodable => Some(NotDecoded)
    case NoSchema => Some(SchemaMissing)
    case Unknown => None
  }

  /** The package a record adds to, "" for none. */
  function Owner(r: Record): string
  {
    match r
    case PackageRecord(name, _) => name
    case ChannelRecord(owner, _, _) => owner
    case BundleRecord(owner, _, _, _) => owner
    case _ => ""
  }

  function Ensured(packages: Packages, name: string): Packages
  {
    if name in packages then packages else packages[name := Package(name, "", map[], map[])]
  }

  function AsChannel(r: Record): Channel
    requires r.ChannelRecord?
  {
    Channel(r.name, r.entries, false)
  }

  function AsBundle(r: Record): Bundle
    requires r.BundleRecord? && Fault(r).None?
  {
    Bundle(r.name, PackageVersion(r.properties).version, r.image, false)
  }

  /** addMeta on a record without a fault. */
  function Added(packages: Packages, r: Record): Packages
    requires Fault(r).None?
  {
    if r.Unknown? then packages
    else
      var ensured := Ensured(packages, Owner(r));
      var p := ensured[Owner(r)];
      ensured[Owner(r) := match r
        case PackageRecord(_, defaultChannel) => p.(defaultChannel := defaultChannel)
        case ChannelRecord(_, name, _) => p.(channels := p.channels[name := AsChannel(r)])
        case BundleRecord(_, name, _, _) => p.(bundles := p.bundles[name := AsBundle(r)])]
  }

  ghost predicate Faultless(records: seq<Record>)
  {
    forall r :: r in records ==> Fault(r).None?
  }

  /** The packages after adding the records one by one. */
  function Build(records: seq<Record>): Packages
    requires Faultless(records)
  {
    if records == [] then map[]
    else
      var n := |records| - 1;
      Added(Build(records[..n]), records[n])
  }

  /** The snapshot under construction. */
  class Builder {
    var packages: Packages

    constructor ()
      ensures packages == map[]
    {
      packages := map[];
    }

    method EnsurePackage(name: string) returns (p: Package)
      modifies this
      ensures packages == Ensured(old(packages), name) && p == packages[name]
    {
      if name in packages { return packages[name]; }
      p := Package(name, "", map[], map[]);
      packages := packages[name := p];
    }

    /** addMeta; a bundle without a version is refused after its package was created. */
    method AddMeta(r: Record) returns (error: Option<BuildError>)
      modifies this
      ensures error == Fault(r)
      ensures error == Some(PackageIncomplete) <==> r.PackageRecord? && r.name == ""
      ensures error == Some(ChannelIncomplete) <==> r.ChannelRecord? && (r.owner == "" || r.name == "")
      ensures error == Some(BundleIncomplete) <==> r.BundleRecord? && (r.owner == "" || r.name == "")
      ensures error == Some(NotDecoded) <==> r.Undecodable?
      ensures error == Some(SchemaMissing) <==> r.NoSchema?
      ensures error.None? ==> packages == Added(old(packages), r)
      ensures error.Some? ==> packages == old(packages) || packages == Ensured(old(packages), Owner(r))
    {
      match r {
        case PackageRecord(name, defaultChannel) =>
          if name == "" { return Some(PackageIncomplete); }
          var p := EnsurePackage(name);
          packages := packages[name := p.(defaultChannel := defaultChannel)];
        case ChannelRecord(owner, name, entries) =>
          if owner == "" || name == "" { return Some(ChannelIncomplete); }
          var p := EnsurePackage(owner);
          packages := packages[owner := p.(channels := p.channels[name := Channel(name, entries, false)])];
        case BundleRecord(owner, name, image, properties) =>
          if owner == "" || name == "" { return Some(BundleIncomplete); }
          var p := EnsurePackage(owner);
          var version := FindPackageVersion(properties);
          if version.NoVersion? { return Some(version.error); }
          packages := packages[owner := p.(bundles := p.bundles[name := Bundle(name, version.version, image, false)])];
        case Undecodable =>
          return Some(NotDecoded);
        case NoSchema =>
          return Some(SchemaMissing);
        case Unknown =>
      }
      return None;
    }
  }

  // ---- What the fold computes, whatever the order

  datatype Schema = OfPackage | OfChannel | OfBundle | OfNone

  datatype RecordKey = RecordKey(schema: Schema, owner: string, name: string)

  function KeyOf(r: Record): RecordKey
  {
    match r
    case PackageRecord(name, _) => RecordKey(OfPackage, name, "")
    case ChannelRecord(owner, name, _) => RecordKey(OfChannel, owner, name)
    case BundleRecord(owner, name, _, _) => RecordKey(OfBundle, owner, name)
    case _ => RecordKey(OfNone, "", "")
  }

  /** What a record says about its key. */
  datatype Fact = DefaultIs(channel: string) | ChannelIs(value: Channel) | BundleIs(bundle: Bundle) | Nothing

  function FactOf(r: Record): Fact
    requires Fault(r).None?
  {
    match r
    case PackageRecord(_, defaultChannel) => DefaultIs(defaultChannel)
    case ChannelRecord(_, _, _) => ChannelIs(AsChannel(r))
    case BundleRecord(_, _, _, _) => BundleIs(AsBundle(r))
    case _ => Nothing
  }

  /** Records of one key say the same. Catalogs whose keys are unique satisfy this. */
  ghost predicate Consistent(records: seq<Record>)
    requires Faultless(records)
  {
    forall r, q :: r in records && q in records && KeyOf(r) == KeyOf(q) ==> FactOf(r) == FactOf(q)
  }

  /** What the packages say about a key. */
  function Says(packages: Packages, k: RecordKey): Fact
  {
    if k.owner !in packages then Nothing
    else
      var p := packages[k.owner];
      match k.schema
      case OfPackage => DefaultIs(p.defaultChannel)
      case OfChannel => if k.name in p.channels then ChannelIs(p.channels[k.name]) else Nothing
      case OfBundle => if k.name in p.bundles then BundleIs(p.bundles[k.name]) else Nothing
      case OfNone => Nothing
  }

  predicate Shaped(k: RecordKey)
  {
    k.schema == OfPackage ==> k.name == ""
  }

  /** What an existing package says about a key that no record has. */
  function Default(k: RecordKey): Fact
  {
    if k.schema == OfPackage then DefaultIs("") else Nothing
  }

  ghost predicate HasKey(records: seq<Record>, k: RecordKey)
  {
    exists r :: r in records && KeyOf(r) == k
  }

  ghost predicate HasOwner(records: seq<Record>, n: string)
  {
    n != "" && exists r :: r in records && Owner(r) == n
  }

  /** The packages say exactly what the records say, and nothing more. */
  ghost predicate Represents(packages: Packages, records: seq<Record>)
    requires Faultless(records)
  {
    && (forall n :: n in packages <==> HasOwner(records, n))
    && (forall n :: n in packages ==> packages[n].name == n)
    && (forall r :: r in records ==> Says(packages, KeyOf(r)) == FactOf(r))
    && (forall k: RecordKey :: k.owner in packages && Shaped(k) && !HasKey(records, k) ==> Says(packages, k) == Default(k))
  }

  /** One record changes what is said about its own key only. */
  lemma AddedSays(packages: Packages, r: Record, k: RecordKey)
    requires Fault(r).None? && Shaped(k) && "" !in packages
    ensures Says(Added(packages, r), k)
         == if k == KeyOf(r) then FactOf(r)
            else if k.owner in packages then Says(packages, k)
            else if k.owner == Owner(r) && k.owner != "" then Default(k)
            else Nothing
  {
    hide PackageVersion;
  }

  lemma {:induction false} BuildRepresents(records: seq<Record>)
    requires Faultless(records) && Consistent(records)
    ensures Represents(Build(records), records)
  {
    hide Says, Fault, FactOf;
    if records != [] {
      var n := |records| - 1;
      var init, last := records[..n], records[n];
      assert records == init + [last];
      assert forall r :: r in records <==> r in init || r == last;
      BuildRepresents(init);
      AddRepresents(Build(init), init, last, records);
    }
  }

  lemma AddRepresents(packages: Packages, init: seq<Record>, last: Record, records: seq<Record>)
    requires Faultless(records) && Consistent(records)
    requires forall r :: r in records <==> r in init || r == last
    requires Represents(packages, init)
    ensures Represents(Added(packages, last), records)
  {
    hide Says, FactOf, PackageVersion;
    var added := Added(packages, last);
    OwnersAfter(packages, init, last, records);
    forall r | r in records ensures Says(added, KeyOf(r)) == FactOf(r) {
      AddedSays(packages, last, KeyOf(r));
      if r in init && KeyOf(r) != KeyOf(last) { SaysKnown(packages, r); }
    }
    forall k: RecordKey | k.owner in added && Shaped(k) && !HasKey(records, k) ensures Says(added, k) == Default(k) {
      AddedSays(packages, last, k);
      assert KeyOf(last) != k;
      if k.owner in packages { assert !HasKey(init, k); }
    }
  }

  lemma SaysKnown(packages: Packages, r: Record)
    requires Fault(r).None? && (Owner(r) != "" ==> Owner(r) in packages) && "" !in packages
    ensures KeyOf(r).owner in packages || FactOf(r) == Nothing
  {}

  lemma OwnersAfter(packages: Packages, init: seq<Record>, last: Record, records: seq<Record>)
    requires Fault(last).None? && forall r :: r in records <==> r in init || r == last
    requires forall n :: n in packages <==> HasOwner(init, n)
    requires forall n :: n in packages ==> packages[n].name == n
    ensures forall n :: n in Added(packages, last) <==> HasOwner(records, n)
    ensures forall n :: n in Added(packages, last) ==> Added(packages, last)[n].name == n
  {
    hide PackageVersion;
    var added := Added(packages, last);
    forall n ensures n in added <==> HasOwner(records, n) {
      assert n in added <==> n in packages || (n == Owner(last) && !last.Unknown?);
      if HasOwner(init, n) {
        var r :| r in init && Owner(r) == n;
        assert r in records;
      }
      assert last in records;
    }
  }

  /** Packages that represent the same records are the same. */
  lemma RepresentationIsUnique(a: Packages, b: Packages, records: seq<Record>)
    requires Faultless(records) && Represents(a, records) && Represents(b, records)
    ensures a == b
  {
    hide Fault, FactOf, Says;
    forall k | Shaped(k) ensures Says(a, k) == Says(b, k) {
      if HasKey(records, k) {
        var r :| r in records && KeyOf(r) == k;
      } else if k.owner !in a {
        SaysNothing(a, k);
        SaysNothing(b, k);
      }
    }
    SaysDetermines(a, b);
  }

  lemma SaysNothing(packages: Packages, k: RecordKey)
    requires k.owner !in packages
    ensures Says(packages, k) == Nothing
  {}

  lemma SaysDetermines(a: Packages, b: Packages)
    requires a.Keys == b.Keys
    requires forall n :: n in a ==> a[n].name == n && b[n].name == n
    requires forall k :: Shaped(k) ==> Says(a, k) == Says(b, k)
    ensures a == b
  {
    forall n | n in a ensures a[n] == b[n] {
      assert Says(a, RecordKey(OfPackage, n, "")) == Says(b, RecordKey(OfPackage, n, ""));
      forall c ensures c in a[n].channels <==> c in b[n].channels
        ensures c in a[n].channels ==> a[n].channels[c] == b[n].channels[c]
      {
        assert Says(a, RecordKey(OfChannel, n, c)) == Says(b, RecordKey(OfChannel, n, c));
      }
      forall c ensures c in a[n].bundles <==> c in b[n].bundles
        ensures c in a[n].bundles ==> a[n].bundles[c] == b[n].bundles[c]
      {
        assert Says(a, RecordKey(OfBundle, n, c)) == Says(b, RecordKey(OfBundle, n, c));
      }
      assert a[n].channels == b[n].channels && a[n].bundles == b[n].bundles;
    }
  }

  lemma RepresentsSame(packages: Packages, records: seq<Record>, permuted: seq<Record>)
    requires Faultless(records) && Represents(packages, records) && Elements(permuted) == Elements(records)
    ensures Faultless(permuted) && Represents(packages, permuted)
  {
    hide Fault, FactOf, Says;
    assert forall r :: r in permuted <==> r in Elements(permuted);
    assert forall r :: r in records <==> r in Elements(records);
    assert forall k :: HasKey(permuted, k) <==> HasKey(records, k);
    assert forall n :: HasOwner(permuted, n) <==> HasOwner(records, n);
  }

  /** Records that do not contradict each other give the same packages in every order, with any
      repetitions: every interleaving of the concurrent parsers builds the same snapshot. */
  lemma OrderDoesNotMatter(records: seq<Record>, permuted: seq<Record>)
    requires Faultless(records) && Consistent(records) && Elements(permuted) == Elements(records)
    ensures Faultless(permuted) && Build(permuted) == Build(records)
  {
    hide Fault, FactOf, Represents, Build;
    assert forall r :: r in permuted <==> r in Elements(permuted);
    assert forall r :: r in records <==> r in Elements(records);
    BuildRepresents(records);
    BuildRepresents(permuted);
    RepresentsSame(Build(permuted), permuted, records);
    RepresentationIsUnique(Build(permuted), Build(records), records);
  }

  /** The condition is needed: two records that say different things of one key give different
      packages in the two orders, whatever came before. */
  lemma ContradictionsMakeOrderMatter(before: seq<Record>, r: Record, q: Record)
    requires Faultless(before + [r, q]) && KeyOf(r) == KeyOf(q) && FactOf(r) != FactOf(q)
    ensures Faultless(before + [q, r]) && Build(before + [r, q]) != Build(before + [q, r])
  {
    assert forall x :: x in before + [q, r] <==> x in before + [r, q];
    LastRecordWins(before + [r], q);
    LastRecordWins(before + [q], r);
    assert before + [r] + [q] == before + [r, q] && before + [q] + [r] == before + [q, r];
  }

  lemma LastRecordWins(records: seq<Record>, last: Record)
    requires Faultless(records + [last])
    ensures Says(Build(records + [last]), KeyOf(last)) == FactOf(last)
  {
    assert (records + [last])[..|records|] == records;
    assert last in records + [last];
    forall r | r in records ensures Fault(r).None? { assert r in records + [last]; }
    NoUnnamedPackage(records);
    AddedSays(Build(records), last, KeyOf(last));
  }

  lemma {:induction false} NoUnnamedPackage(records: seq<Record>)
    requires Faultless(records)
    ensures "" !in Build(records)
  {
    hide PackageVersion;
    if records != [] {
      var n := |records| - 1;
      assert forall r :: r in records[..n] ==> r in records;
      NoUnnamedPackage(records[..n]);
      assert records[n] in records;
    }
  }
}
