/** Catalog values: sources, update graphs and the snapshots built from them. */
module CatalogTypes {

  datatype Source = Source(id: string, image: string, platform: string)

  datatype Bundle = Bundle(name: string, version: string, image: string, deprecated: bool)

  datatype Entry = Entry(name: string, replacing: string, skips: seq<string>, skipRange: string)

  datatype Channel = Channel(name: string, entries: seq<Entry>, deprecated: bool)

  datatype Package = Package(
    name: string,
    defaultChannel: string,
    channels: map<string, Channel>,
    bundles: map<string, Bundle>)

  type Packages = map<string, Package>

  /** generatedAt is in nanoseconds; 0 is Go's zero time. */
  datatype Snapshot = Snapshot(source: Source, generatedAt: int, packages: Packages)

  ghost predicate UniqueIds(sources: seq<Source>)
  {
    forall i, j :: 0 <= i < j < |sources| ==> sources[i].id != sources[j].id
  }
}
