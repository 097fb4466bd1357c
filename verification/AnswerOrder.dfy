/** What the resolver's answers look like to a client: versions by precedence, the greatest head of
    each offered channel, and the offers by family and version. */
module AnswerOrder {
  import opened Orders
  import opened SemVer
  import opened Precedence
  import opened CatalogTypes
  import opened Channels
  import opened UpdateGraph
  import opened VersionOrders
  import opened Resolve
  import opened ChannelReleases

  // ---- VersionUpdates

  /** Valid versions by precedence, then invalid ones as texts. */
  lemma UpdatesAscend(check: RangeCheck, p: Package, ch: Channel, req: UpdateRequest, r: Result<seq<string>>, i: nat, j: nat)
    requires UpdatesFrom(check, p, ch, req, r) && r.Ok? && i < |r.value| && j < |r.value|
    ensures var a, b := Parse(r.value[i]), Parse(r.value[j]);
      && (a.Some? && b.Some? && Precedes(a.value, b.value) ==> i < j)
      && (a.Some? && b.None? ==> i < j)
      && (a.None? && b.None? && TextFirst(r.value[i], r.value[j]) ==> i < j)
  {
    hide Parse, LessThan, Precedes, TextLess, TextFirst, Offered, Installed;
    var a, b := Parse(r.value[i]), Parse(r.value[j]);
    if a.Some? && b.Some? {
      LessThanIff(a.value, b.value);
      LessThanOrder(a.value, b.value, a.value);
    }
    TextLessIff(r.value[i], r.value[j]);
    TextOrder(r.value[i], r.value[j], r.value[i]);
  }

  // ---- ChannelReleases

  /** No other reachable head has a higher version, or the same one and a later name. */
  lemma OfferedHeadIsHighest(check: RangeCheck, p: Package, current: string, installed: Bundle, r: ChannelRelease, other: Bundle)
    requires NamedBundles(p) && IsOffer(check, p, current, installed, r)
    requires IsUpgradeHead(check, p, p.channels[r.channel], installed, other) && other.name != r.bundle
    ensures var v, w := Parse(p.bundles[r.bundle].version), Parse(other.version);
      && (w.Some? ==> v.Some? && (Precedes(w.value, v.value) || v == w))
      && (v == w ==> TextFirst(other.name, r.bundle))
  {
    hide Parse, LessThan, Precedes, TextLess, TextFirst, IsUpgradeHead;
    var v, w := Parse(p.bundles[r.bundle].version), Parse(other.version);
    if v.Some? && w.Some? { LessThanIff(w.value, v.value); }
    TextLessIff(other.name, r.bundle);
    assert BundleLess(other, p.bundles[r.bundle]);
  }

  /** Both names end in a hyphen and a version, behind the same family. */
  ghost predicate OneFamily(a: string, b: string)
  {
    ChannelSuffix(a).Some? && ChannelSuffix(b).Some? && ChannelSuffix(a).value.family == ChannelSuffix(b).value.family
  }

  /** A channel counts as newer when it is of the current family at a higher version. */
  lemma NewerIff(current: string, channel: string)
    ensures Newer(current, channel) <==>
      OneFamily(current, channel) && Precedes(ChannelSuffix(current).value.version, ChannelSuffix(channel).value.version)
  {
    hide ChannelSuffix, LessThan, Precedes;
    if OneFamily(current, channel) {
      LessThanIff(ChannelSuffix(current).value.version, ChannelSuffix(channel).value.version);
    }
  }

  /** The current family's channels come first; one family's channels ascend by version; other
      channels ascend as texts. */
  lemma OffersAscend(check: RangeCheck, p: Package, current: string, installed: Bundle, offers: seq<ChannelRelease>, i: nat, j: nat)
    requires AllOffers(check, p, current, installed, offers)
    requires OffersOrdered(current, OfferedChannels(check, p, current, installed))
    requires i < j < |offers|
    ensures var a, b := offers[i].channel, offers[j].channel;
      && (OneFamily(current, b) ==> OneFamily(current, a))
      && (OneFamily(a, b) ==> !Precedes(ChannelSuffix(b).value.version, ChannelSuffix(a).value.version))
      && (!OneFamily(current, a) && !OneFamily(a, b) ==> TextFirst(a, b))
  {
    hide ChannelSuffix, LessThan, Precedes, TextLess, TextFirst, IsOffer, OfferedChannels, OffersOrdered;
    var a, b := offers[i].channel, offers[j].channel;
    assert !ReleaseLess(current, offers[j], offers[i]);
    if OneFamily(a, b) { LessThanIff(ChannelSuffix(b).value.version, ChannelSuffix(a).value.version); }
    TextLessIff(a, b);
    TextOrder(b, a, b);
  }
}
