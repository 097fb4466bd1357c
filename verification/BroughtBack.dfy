/** A graph with a release that no edge leads to, and a stream that has accepted it: the answer calls
    it deprecated although the graph names it. */
module BroughtBack {
  import opened Orders
  import opened SemVer
  import opened FamilyOrder
  import opened Channels
  import opened OpenShiftTypes
  import opened ReleaseOrder
  import opened ReleaseStream
  import opened ReleaseGraph
  import opened ReleaseUpdates
  import opened ReleaseFields

  ghost function Installed(): string { "4" + "." + "16" + "." + "0" }

  ghost function Unlinked(): string { "4" + "." + "16" + "." + "1" }

  ghost function Successor(): string { "4" + "." + "16" + "." + "2" }

  ghost function Request(): UpdateRequest { UpdateRequest("stable-4.16", "amd64", Installed(), 0) }

  ghost function Nodes(url: string): seq<Node>
  {
    [Node(Installed(), "", ""), Node(Unlinked(), url, "sha256:1"), Node(Successor(), "", "sha256:2")]
  }

  ghost function TheGraph(url: string): Graph { Graph(Some(Nodes(url)), Some([[Some(0), Some(2)]])) }

  ghost function Tags(): seq<Tag> { [Tag(Unlinked(), "Accepted")] }

  ghost function Brought(url: string): Release { Release(Unlinked(), true, [], url, "") }

  ghost function TheParts(url: string): Parts { Parts(0, [ReleaseOf(Nodes(url)[2])], [Brought(url)]) }

  lemma Numbers()
    ensures IsNumber("4") && IsNumber("16") && IsNumber("0") && IsNumber("1") && IsNumber("2")
    ensures DecimalValue("0") == 0 && DecimalValue("1") == 1 && DecimalValue("2") == 2
  {
    assert DecimalValue([]) == 0;
    assert "1"[..0] == [] && "2"[..0] == [] && "4"[..0] == [] && "0"[..0] == [] && "16"[..1] == "1";
  }

  lemma TheVersions()
    ensures Parse(Installed()).Some? && Parse(Unlinked()).Some? && Parse(Successor()).Some?
    ensures Parse(Unlinked()).value.prerelease == []
    ensures TextPrecedes(Installed(), Unlinked()) && TextPrecedes(Unlinked(), Successor()) && TextPrecedes(Installed(), Successor())
    ensures Installed() != Unlinked() && Unlinked() != Successor() && Installed() != Successor()
    ensures Installed() != "" && Unlinked() != "" && Successor() != ""
  {
    Numbers();
    hide Parse, IsNumber, DecimalValue;
    CoreVersion("4", "16", "0");
    CoreVersion("4", "16", "1");
    CoreVersion("4", "16", "2");
  }

  lemma TheRequestIsFine()
    ensures Rejected(Request()).None?
  {
    var r := Request();
    assert r.channel[0] == 's' && r.architecture[0] == 'a' && r.currentVersion[0] == '4';
    StartsWithText(r.channel);
    StartsWithText(r.architecture);
    StartsWithText(r.currentVersion);
    hide Blank, Installed;
  }

  lemma TheGraphIsSound(url: string)
    ensures Sound(TheGraph(url))
    ensures forall r :: IsTarget(Nodes(url), TheGraph(url).edges.value, 0, r) <==> r == ReleaseOf(Nodes(url)[2])
  {
    TheVersions();
    hide Parse, TextPrecedes, Installed, Unlinked, Successor;
    var edges: seq<Edge> := TheGraph(url).edges.value;
    assert |edges| == 1 && edges[0][0].value == 0 && edges[0][1].value == 2;
  }

  lemma TheSelection(url: string)
    ensures Sound(TheGraph(url)) && Selected(Request(), TheGraph(url), TheParts(url))
  {
    TheGraphIsSound(url);
    hide Sound, IsTarget, Contiguous;
    assert TheParts(url).targets == [ReleaseOf(Nodes(url)[2])];
  }

  /** The history up to 4.16.2 is the tag. */
  lemma TheHistory(url: string, advisory: IsAdvisory)
    requires advisory(url) && !advisory("")
    ensures HistoryOf(Request(), TheGraph(url), Some(Tags()), advisory, TheParts(url))
  {
    TheVersions();
    hide Parse, LessThan, TextPrecedes, Installed, Unlinked, Successor, IsAdvisoryMap, FreshNames, IsLatest;
    var urls := map[Unlinked() := url];
    TheURLs(url, advisory);
    var base := Base(TheGraph(url), 0, TheParts(url));
    TheBase(url);
    TheLimit(base);
    TheNames(base);
    hide Base;
    assert Versions([Brought(url)]) == [Unlinked()];
    assert HistoryUpTo(Tags(), Installed(), Successor(), urls, base, [Brought(url)]);
  }

  lemma TheURLs(url: string, advisory: IsAdvisory)
    requires advisory(url) && !advisory("")
    ensures IsAdvisoryMap(Nodes(url), advisory, map[Unlinked() := url])
  {
    hide Installed, Unlinked, Successor;
    assert Nodes(url)[1] in Nodes(url);
  }

  lemma TheBase(url: string)
    ensures Base(TheGraph(url), 0, TheParts(url)) == [ReleaseOf(Nodes(url)[0]), ReleaseOf(Nodes(url)[2])]
  {
    hide Installed, Unlinked, Successor;
  }

  lemma TheLimit(base: seq<Release>)
    requires |base| == 2 && base[0].version == Installed() && base[1].version == Successor()
    ensures IsLatest(base, Successor())
  {
    TheVersions();
    hide Parse, LessThan, Installed, Unlinked, Successor;
    PrecedesBoth(Installed(), Successor(), Installed());
    assert base[1] in base;
  }

  lemma TheNames(base: seq<Release>)
    requires |base| == 2 && base[0].version == Installed() && base[1].version == Successor()
    ensures FreshNames(Tags(), Installed(), Successor(), base) == [Unlinked()]
  {
    TheVersions();
    hide Parse, LessThan, Installed, Unlinked, Successor;
    PrecedesBoth(Unlinked(), Successor(), Unlinked());
    assert Tags()[..0] == [] && AcceptedNames(Tags()) == [Unlinked()];
    assert [Unlinked()][..0] == [];
    assert StreamNames(Tags(), Installed(), Successor()) == [Unlinked()];
    assert Unlinked() !in Names(base);
  }

  lemma TheOrder(url: string)
    ensures Sorted(ReleaseLess, [ReleaseOf(Nodes(url)[0]), Brought(url), ReleaseOf(Nodes(url)[2])])
  {
    TheVersions();
    hide Parse, LessThan, TextLess, Installed, Unlinked, Successor;
    var a, b, c := Parse(Installed()).value, Parse(Unlinked()).value, Parse(Successor()).value;
    LessThanOrder(a, b, c);
    LessThanOrder(b, c, a);
    LessThanOrder(a, c, b);
  }

  lemma TheStreamIsAsked(url: string)
    ensures NeedsStream(Client("", ""), Request(), TheGraph(url), TheParts(url))
    ensures ReleaseUpdates.Complete(StreamTags(Some(Tags())))
  {
    TheVersions();
    hide Parse, TextPrecedes, Installed, Unlinked, Successor;
    assert |"Accepted"| == 8;
  }

  /** The answer, and the release it brings back: deprecated, with its advisory's URL and no digest. */
  lemma TheStreamBringsANode(url: string, advisory: IsAdvisory) returns (out: seq<Release>)
    requires advisory(url) && !advisory("")
    ensures Successful(Client("", ""), Request(), TheGraph(url), StreamTags(Some(Tags())), advisory, out, TheParts(url))
    ensures |out| == 3 && out[1] == Release(Unlinked(), true, [], url, "")
    ensures NamedByGraph(TheGraph(url), out[1].version)
  {
    out := [ReleaseOf(Nodes(url)[0]), Brought(url), ReleaseOf(Nodes(url)[2])];
    TheRequestIsFine();
    TheSelection(url);
    TheHistory(url, advisory);
    TheStreamIsAsked(url);
    TheAssembly(url);
    assert Nodes(url)[1] in Nodes(url);
    hide Sound, Selected, Rejected, NeedsStream, HistoryOf, Complete, Assembled, Installed, Unlinked, Successor;
  }

  lemma TheAssembly(url: string)
    ensures Assembled(TheGraph(url), 0, TheParts(url), [ReleaseOf(Nodes(url)[0]), Brought(url), ReleaseOf(Nodes(url)[2])])
  {
    TheOrder(url);
    TheBase(url);
    hide Installed, Unlinked, Successor, Sorted, Contiguous, Base;
    var a, b, c := ReleaseOf(Nodes(url)[0]), Brought(url), ReleaseOf(Nodes(url)[2]);
    assert [a, c] + [b] == [a, c, b] && multiset([a, b, c]) == multiset([a, c, b]);
  }
}
