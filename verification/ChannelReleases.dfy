/** ChannelReleases: the current channel, then the channels offered for the installed bundle. */
module ChannelReleases {
  import opened Orders
  import opened CatalogTypes
  import opened FamilyOrder
  import opened Channels
  import opened UpdateGraph
  import opened VersionOrders
  import opened Resolve
  import opened ChannelSwitch

  // ---- Offers

  /** h is above every other head the installed bundle can reach in the channel. */
  ghost predicate GreatestHead(check: RangeCheck, p: Package, ch: Channel, installed: Bundle, h: Bundle)
  {
    IsUpgradeHead(check, p, ch, installed, h)
    && forall other :: IsUpgradeHead(check, p, ch, installed, other) && other != h ==> BundleLess(other, h)
  }

  /** Another channel that is not deprecated, with the greatest head reachable in it. */
  ghost predicate IsOffer(check: RangeCheck, p: Package, current: string, installed: Bundle, r: ChannelRelease)
  {
    && r.channel in p.channels && r.channel != current && !p.channels[r.channel].deprecated
    && r.bundle in p.bundles && GreatestHead(check, p, p.channels[r.channel], installed, p.bundles[r.bundle])
  }

  ghost predicate IsOffered(check: RangeCheck, p: Package, current: string, installed: Bundle, channel: string)
  {
    exists b :: IsOffer(check, p, current, installed, ChannelRelease(channel, b))
  }

  ghost function OfferedChannels(check: RangeCheck, p: Package, current: string, installed: Bundle): set<string>
  {
    set c | c in p.channels && IsOffered(check, p, current, installed, c)
  }

  /** A channel is offered exactly when it is another, live channel with some reachable live head. */
  lemma OfferedIffAHeadIsReachable(check: RangeCheck, p: Package, current: string, installed: Bundle, c: string)
    requires NamedBundles(p)
    ensures IsOffered(check, p, current, installed, c) <==>
      c in p.channels && c != current && !p.channels[c].deprecated
        && exists h :: IsUpgradeHead(check, p, p.channels[c], installed, h)
  {
    hide IsUpgradeHead, BundleLess;
    if c in p.channels && c != current && !p.channels[c].deprecated {
      if h :| IsUpgradeHead(check, p, p.channels[c], installed, h) {
        forall b | IsUpgradeHead(check, p, p.channels[c], installed, b) ensures b in p.bundles.Values {
          HeadIsStored(check, p, p.channels[c], installed, b);
        }
        var g := GreatestAmong(check, p, p.channels[c], installed, h, p.bundles.Values);
        GreatestIsOffer(check, p, current, installed, c, g);
      }
    }
  }

  lemma HeadIsStored(check: RangeCheck, p: Package, ch: Channel, installed: Bundle, b: Bundle)
    requires IsUpgradeHead(check, p, ch, installed, b)
    ensures b.name in p.bundles && p.bundles[b.name] == b && b in p.bundles.Values
  {}

  lemma GreatestIsOffer(check: RangeCheck, p: Package, current: string, installed: Bundle, c: string, g: Bundle)
    requires c in p.channels && c != current && !p.channels[c].deprecated
    requires GreatestHead(check, p, p.channels[c], installed, g)
    ensures IsOffer(check, p, current, installed, ChannelRelease(c, g.name))
  {}

  /** A finite set of candidates that holds every head above h has a greatest head. */
  lemma {:induction false} GreatestAmong(check: RangeCheck, p: Package, ch: Channel, installed: Bundle, h: Bundle, s: set<Bundle>)
    returns (g: Bundle)
    requires IsUpgradeHead(check, p, ch, installed, h)
    requires forall b :: IsUpgradeHead(check, p, ch, installed, b) && b != h ==> b in s || BundleLess(b, h)
    ensures GreatestHead(check, p, ch, installed, g)
    decreases s
  {
    hide BundleLess;
    if b :| b in s && IsUpgradeHead(check, p, ch, installed, b) && b != h && BundleLess(h, b) {
      forall o | IsUpgradeHead(check, p, ch, installed, o) && o != b && BundleLess(o, h) ensures BundleLess(o, b) {
        BundleLessOrder(o, h, b);
      }
      g := GreatestAmong(check, p, ch, installed, b, s - {b});
    } else {
      forall o | IsUpgradeHead(check, p, ch, installed, o) && o != h ensures BundleLess(o, h) {
        BundleLessOrder(o, h, o);
        HeadsAreNamed(check, p, ch, installed, o, h);
      }
      g := h;
    }
  }

  lemma HeadsAreNamed(check: RangeCheck, p: Package, ch: Channel, installed: Bundle, a: Bundle, b: Bundle)
    requires IsUpgradeHead(check, p, ch, installed, a) && IsUpgradeHead(check, p, ch, installed, b)
    ensures a != b ==> a.name != b.name
  {}

  /** The last of the sorted heads is the channel's only greatest head. */
  lemma LastHeadIsOffered(check: RangeCheck, p: Package, current: string, installed: Bundle, c: string, heads: seq<Bundle>)
    requires NamedBundles(p) && c in p.channels && c != current && !p.channels[c].deprecated
    requires forall b :: b in heads <==> IsUpgradeHead(check, p, p.channels[c], installed, b)
    requires Distinct(heads) && Sorted(BundleLess, heads)
    ensures forall r: ChannelRelease :: r.channel == c ==>
      (IsOffer(check, p, current, installed, r) <==> heads != [] && r == ChannelRelease(c, heads[|heads| - 1].name))
  {
    hide BundleLess;
    forall r: ChannelRelease | r.channel == c && IsOffer(check, p, current, installed, r)
      ensures heads != [] && r == ChannelRelease(c, heads[|heads| - 1].name)
    {
      assert p.bundles[r.bundle] in heads;
      var last := heads[|heads| - 1];
      assert last in heads;
      BundleLessOrder(last, p.bundles[r.bundle], last);
      LastIsGreatestHead(check, p, p.channels[c], installed, heads);
    }
    if heads != [] {
      LastIsGreatestHead(check, p, p.channels[c], installed, heads);
      GreatestIsOffer(check, p, current, installed, c, heads[|heads| - 1]);
    }
  }

  lemma LastIsGreatestHead(check: RangeCheck, p: Package, ch: Channel, installed: Bundle, heads: seq<Bundle>)
    requires forall b :: b in heads <==> IsUpgradeHead(check, p, ch, installed, b)
    requires Distinct(heads) && Sorted(BundleLess, heads) && heads != []
    ensures GreatestHead(check, p, ch, installed, heads[|heads| - 1])
  {
    hide IsUpgradeHead, BundleLess;
    forall i, j | 0 <= i < j < |heads| ensures heads[i].name != heads[j].name {
      HeadsAreNamed(check, p, ch, installed, heads[i], heads[j]);
    }
    LastIsGreatest(heads);
  }

  /** The offers, in the order a map happens to be ranged over. */
  method CollectOffers(check: RangeCheck, p: Package, current: string, installed: Bundle)
    returns (offers: seq<ChannelRelease>)
    requires NamedBundles(p)
    ensures forall r :: r in offers <==> IsOffer(check, p, current, installed, r)
    ensures forall i, j :: 0 <= i < j < |offers| ==> offers[i].channel != offers[j].channel
  {
    hide IsUpgradeHead, BundleLess;
    offers := [];
    var rest := p.channels.Keys;
    while rest != {}
      invariant rest <= p.channels.Keys
      invariant forall r :: r in offers <==> r.channel !in rest && IsOffer(check, p, current, installed, r)
      invariant forall i, j :: 0 <= i < j < |offers| ==> offers[i].channel != offers[j].channel
      decreases rest
    {
      var name :| name in rest;
      ghost var before := rest;
      rest := rest - {name};
      if name == current || p.channels[name].deprecated {
        assert forall r: ChannelRelease :: r.channel == name ==> !IsOffer(check, p, current, installed, r);
        continue;
      }
      var heads := ChannelUpgradeHeads(check, p, p.channels[name], installed);
      LastHeadIsOffered(check, p, current, installed, name, heads);
      if heads == [] { continue; }
      forall i | 0 <= i < |offers| ensures offers[i].channel != name { assert offers[i] in offers; }
      offers := offers + [ChannelRelease(name, heads[|heads| - 1].name)];
    }
  }

  // ---- The order of offers, and the next channel

  /** The current channel's family, at a version above the current channel's. */
  predicate Newer(current: string, channel: string)
  {
    SameFamily(current, channel) && OlderVersion(current, channel)
  }

  predicate ReleaseLess(current: string, a: ChannelRelease, b: ChannelRelease)
  {
    CandidateLess(current, a.channel, b.channel)
  }

  /** The offered channels outside the current family do not interleave with each other's families. */
  ghost predicate OffersOrdered(current: string, names: set<string>)
  {
    FamiliesContiguous(set n | n in names && !SameFamily(current, n))
  }

  lemma ReleaseLessIsStrictWeak(current: string, names: set<string>, s: set<ChannelRelease>)
    requires OffersOrdered(current, names)
    requires forall r :: r in s ==> r.channel in names
    ensures StrictWeak((a, b) => ReleaseLess(current, a, b), s)
  {
    hide CandidateLess, FamiliesContiguous;
    CandidateLessOrdersIff(current, names);
  }

  /** k is the first newer channel of the current family or, when there is none, the first candidate
      that is not the current channel. */
  ghost predicate IsNext(current: string, candidates: seq<ChannelRelease>, k: int)
  {
    && 0 <= k < |candidates|
    && if Newer(current, candidates[k].channel) then
         forall j :: 0 <= j < k ==> !Newer(current, candidates[j].channel)
       else
         && candidates[k].channel != current
         && (forall j :: 0 <= j < |candidates| ==> !Newer(current, candidates[j].channel))
         && (forall j :: 0 <= j < k ==> candidates[j].channel == current)
  }

  method NextChannelRelease(current: string, candidates: seq<ChannelRelease>) returns (next: Option<ChannelRelease>)
    ensures next.None? <==> forall c :: c in candidates ==> c.channel == current
    ensures next.Some? ==> exists k :: IsNext(current, candidates, k) && candidates[k] == next.value
  {
    FamilyLessPair(ChannelSuffix, current, current);
    hide ChannelSuffix;
    if ChannelSuffix(current).Some? {
      for k := 0 to |candidates|
        invariant forall j :: 0 <= j < k ==> !Newer(current, candidates[j].channel)
      {
        if Newer(current, candidates[k].channel) {
          assert candidates[k] in candidates && IsNext(current, candidates, k);
          return Some(candidates[k]);
        }
      }
    }
    for k := 0 to |candidates|
      invariant forall j :: 0 <= j < k ==> candidates[j].channel == current
    {
      if candidates[k].channel != current {
        assert candidates[k] in candidates && IsNext(current, candidates, k);
        return Some(candidates[k]);
      }
    }
    return None;
  }

  /** A newer channel of the current family is chosen whenever one is offered, and on ordered
      offers it is the nearest; without one, no offer precedes the choice. */
  ghost predicate NextChoice(check: RangeCheck, p: Package, current: string, installed: Bundle, r: ChannelRelease)
  {
    var offered := OfferedChannels(check, p, current, installed);
    && IsOffer(check, p, current, installed, r)
    && (forall c :: c in offered && Newer(current, c) ==> Newer(current, r.channel))
    && (OffersOrdered(current, offered) ==>
          && (forall c :: c in offered && Newer(current, c) ==> !OlderVersion(c, r.channel))
          && (!Newer(current, r.channel) ==> forall c :: c in offered ==> !CandidateLess(current, c, r.channel)))
  }

  lemma FirstNewerIsNext(check: RangeCheck, p: Package, current: string, installed: Bundle,
                         candidates: seq<ChannelRelease>, k: int)
    requires forall r :: r in candidates <==> IsOffer(check, p, current, installed, r)
    requires OffersOrdered(current, OfferedChannels(check, p, current, installed)) ==>
      Sorted((a, b) => ReleaseLess(current, a, b), candidates)
    requires IsNext(current, candidates, k)
    ensures NextChoice(check, p, current, installed, candidates[k])
  {
    hide ChannelSuffix, GreatestHead, TextLess, FamiliesContiguous;
    var offered := OfferedChannels(check, p, current, installed);
    var chosen := candidates[k];
    assert chosen in candidates;
    forall c | c in offered
      ensures Newer(current, c) ==> Newer(current, chosen.channel)
      ensures OffersOrdered(current, offered) && Newer(current, c) ==> !OlderVersion(c, chosen.channel)
      ensures OffersOrdered(current, offered) && !Newer(current, chosen.channel) ==>
        !CandidateLess(current, c, chosen.channel)
    {
      var b :| IsOffer(check, p, current, installed, ChannelRelease(c, b));
      assert ChannelRelease(c, b) in candidates;
      var j :| 0 <= j < |candidates| && candidates[j] == ChannelRelease(c, b);
      FamilyLessPair(ChannelSuffix, c, c);
      assert c != current;
      if OffersOrdered(current, offered) && k < j {
        assert !ReleaseLess(current, candidates[j], candidates[k]);
      }
    }
  }

  /** What a request for another channel is answered. */
  ghost predicate ReleasesFrom(check: RangeCheck, p: Package, req: ChannelUpdateRequest, r: Result<seq<ChannelRelease>>)
    requires req.currentChannel in p.channels
  {
    var current := req.currentChannel;
    match Installed(p, p.channels[current], req.currentBundle, req.currentVersion)
    case Err(e) =>
      r == (if e == NoUpdatePath then Ok([]) else Err(e))
    case Ok(b) =>
      && r.Ok? && r.value != [] && r.value[0] == ChannelRelease(current, b.name)
      && (if req.selection == "next" then NextOffer(check, p, current, b, r.value[1..])
          else AllOffers(check, p, current, b, r.value[1..]))
  }

  /** Every offer once, in the candidates' order when that orders them. */
  ghost predicate AllOffers(check: RangeCheck, p: Package, current: string, installed: Bundle, offers: seq<ChannelRelease>)
  {
    && (forall o :: o in offers <==> IsOffer(check, p, current, installed, o))
    && (forall i, j :: 0 <= i < j < |offers| ==> offers[i].channel != offers[j].channel)
    && (OffersOrdered(current, OfferedChannels(check, p, current, installed)) ==>
          Sorted((a, b) => ReleaseLess(current, a, b), offers))
  }

  ghost predicate NextOffer(check: RangeCheck, p: Package, current: string, installed: Bundle, offers: seq<ChannelRelease>)
  {
    && |offers| <= 1
    && (offers == [] <==> forall o :: !IsOffer(check, p, current, installed, o))
    && (|offers| == 1 ==> NextChoice(check, p, current, installed, offers[0]))
  }

  method SortedOffers(check: RangeCheck, p: Package, current: string, installed: Bundle)
    returns (offers: seq<ChannelRelease>)
    requires NamedBundles(p)
    ensures AllOffers(check, p, current, installed, offers)
  {
    hide GreatestHead, CandidateLess, FamiliesContiguous;
    var found := CollectOffers(check, p, current, installed);
    offers := SortBy((a, b) => ReleaseLess(current, a, b), found);
    SameElements(found, offers);
    forall o ensures o in offers <==> o in found { assert o in offers <==> o in Elements(offers); }
    forall o | o in found ensures o.channel in OfferedChannels(check, p, current, installed) {
      assert IsOffer(check, p, current, installed, ChannelRelease(o.channel, o.bundle));
    }
    if OffersOrdered(current, OfferedChannels(check, p, current, installed)) {
      ReleaseLessIsStrictWeak(current, OfferedChannels(check, p, current, installed), Elements(found));
    }
    DistinctChannels(found, offers);
  }

  lemma DistinctChannels(found: seq<ChannelRelease>, sorted: seq<ChannelRelease>)
    requires forall i, j :: 0 <= i < j < |found| ==> found[i].channel != found[j].channel
    requires multiset(sorted) == multiset(found)
    ensures forall i, j :: 0 <= i < j < |sorted| ==> sorted[i].channel != sorted[j].channel
  {
    assert Distinct(found);
    DistinctPermutation(found, sorted);
    forall i, j | 0 <= i < j < |sorted| ensures sorted[i].channel != sorted[j].channel {
      assert sorted[i] in multiset(found) && sorted[j] in multiset(found);
    }
  }

  /** The current channel with the installed bundle, then every offer, or the next one only. */
  method ChannelReleases(check: RangeCheck, p: Package, req: ChannelUpdateRequest) returns (r: Result<seq<ChannelRelease>>)
    requires NamedBundles(p)
    ensures req.currentChannel !in p.channels ==> r == Err(UnknownChannel(req.currentChannel))
    ensures req.currentChannel in p.channels ==> ReleasesFrom(check, p, req, r)
  {
    hide GreatestHead, OffersOrdered, OfferedChannels, Newer, ReleaseLess;
    if req.currentChannel !in p.channels { return Err(UnknownChannel(req.currentChannel)); }
    var current := CurrentBundle(p, p.channels[req.currentChannel], req.currentBundle, req.currentVersion);
    if current.Err? { return if current.error == NoUpdatePath then Ok([]) else Err(current.error); }
    var first := ChannelRelease(req.currentChannel, current.value.name);
    var offers := SortedOffers(check, p, req.currentChannel, current.value);
    if req.selection == "next" && offers != [] {
      assert offers[0] in offers;
      var next := NextChannelRelease(req.currentChannel, offers);
      ghost var k :| IsNext(req.currentChannel, offers, k) && offers[k] == next.value;
      FirstNewerIsNext(check, p, req.currentChannel, current.value, offers, k);
      offers := [next.value];
    }
    r := Ok([first] + offers);
    assert r.value[1..] == offers;
  }
}
