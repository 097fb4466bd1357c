/** A graph with one edge down, from 4.16.0 to 4.15.0: an answer that does not begin with the
    installed release, and one in which lag withholds the only successor. */
module DowngradeEdge {
  import opened Orders
  import opened SemVer
  import opened FamilyOrder
  import opened Channels
  import opened OpenShiftTypes
  import opened ReleaseOrder
  import opened ReleaseGraph
  import opened ReleaseUpdates
  import opened ReleaseAnswers

  ghost function Installed(): string { "4" + "." + "16" + "." + "0" }

  ghost function Older(): string { "4" + "." + "15" + "." + "0" }

  /** An architecture without a release stream, so that the graph alone decides. */
  ghost function Request(lag: nat): UpdateRequest { UpdateRequest("stable-4.16", "riscv64", Installed(), lag) }

  ghost function Nodes(): seq<Node> { [Node(Installed(), "", ""), Node(Older(), "", "")] }

  ghost function OneEdgeDown(): Graph { Graph(Some(Nodes()), Some([[Some(0), Some(1)]])) }

  ghost function TheParts(): Parts { Parts(0, [ReleaseOf(Nodes()[1])], []) }

  lemma Numbers()
    ensures IsNumber("4") && IsNumber("15") && IsNumber("16") && IsNumber("0")
    ensures DecimalValue("15") == 15 && DecimalValue("16") == 16
  {
    assert DecimalValue([]) == 0;
    assert "1"[..0] == [] && "4"[..0] == [] && "0"[..0] == [] && "15"[..1] == "1" && "16"[..1] == "1";
    assert DecimalValue("1") == 1;
  }

  lemma OlderPrecedes()
    ensures TextPrecedes(Older(), Installed()) && Parse(Older()) != Parse(Installed())
    ensures Parse(Older()).Some? && Parse(Installed()).Some?
  {
    Numbers();
    hide Parse, IsNumber, DecimalValue;
    CoreVersion("4", "16", "0");
    CoreVersion("4", "15", "0");
  }

  lemma TheGraphIsSound()
    ensures Sound(OneEdgeDown())
    ensures forall r :: IsTarget(Nodes(), OneEdgeDown().edges.value, 0, r) <==> r == ReleaseOf(Nodes()[1])
  {
    OlderPrecedes();
    hide Parse;
    var edges: seq<Edge> := OneEdgeDown().edges.value;
    assert |edges| == 1 && edges[0][0].value == 0 && edges[0][1].value == 1;
    assert Installed() != "" && Older() != "";
  }

  lemma TheRequestIsFine(lag: nat)
    ensures Rejected(Request(lag)).None?
  {
    var r := Request(lag);
    assert r.channel[0] == 's' && r.architecture[0] == 'r' && r.currentVersion[0] == '4';
    StartsWithText(r.channel);
    StartsWithText(r.architecture);
    StartsWithText(r.currentVersion);
    hide Blank, Installed;
  }

  lemma TheSelection(lag: nat)
    ensures Sound(OneEdgeDown()) && Selected(Request(lag), OneEdgeDown(), TheParts())
  {
    TheGraphIsSound();
    hide Sound, IsTarget, Contiguous;
    assert TheParts().targets == [ReleaseOf(Nodes()[1])];
  }

  lemma NoStream(client: Client, lag: nat)
    ensures !NeedsStream(client, Request(lag), OneEdgeDown(), TheParts())
  {
    assert |"riscv64"| == 7 && |"multi"| == 5 && |"amd64"| == 5 && |"arm64"| == 5 && |"ppc64le"| == 7 && |"s390x"| == 5;
    assert "riscv64"[0] != "ppc64le"[0];
  }

  lemma OlderSortsFirst(older: Release, installed: Release)
    requires TextPrecedes(older.version, installed.version)
    ensures Sorted(ReleaseLess, [older, installed])
  {
    hide Parse, LessThan, TextLess;
    var a, b := Parse(older.version).value, Parse(installed.version).value;
    LessThanOrder(a, b, a);
    assert !ReleaseLess(installed, older);
  }

  lemma BothAreAssembled()
    ensures Assembled(OneEdgeDown(), 0, TheParts(), [ReleaseOf(Nodes()[1]), ReleaseOf(Nodes()[0])])
  {
    OlderPrecedes();
    hide Parse, Contiguous, Installed, Older, LessThan, TextPrecedes, Sorted;
    var older, installed := ReleaseOf(Nodes()[1]), ReleaseOf(Nodes()[0]);
    OlderSortsFirst(older, installed);
    assert Base(OneEdgeDown(), 0, TheParts()) + TheParts().added == [installed, older];
    assert multiset([older, installed]) == multiset([installed, older]);
  }

  lemma OneIsAssembled()
    ensures Assembled(OneEdgeDown(), 1, TheParts(), [ReleaseOf(Nodes()[0])])
  {
    hide Contiguous, Installed, Older;
    assert Base(OneEdgeDown(), 1, TheParts()) + TheParts().added == [ReleaseOf(Nodes()[0])];
  }

  lemma TheNamesDiffer()
    ensures PrecedenceDistinct({Installed()} + Names(TheParts().targets)) && SuccessorsOrdered(TheParts())
  {
    OlderPrecedes();
    hide Parse, Installed, Older;
    var targets := TheParts().targets;
    assert forall r :: r in targets <==> r == targets[0];
    assert forall n :: n in Names(targets) <==> n == Older();
    ValidNamesAreContiguous(Names(targets));
  }

  /** Every hypothesis of InstalledIsFirstIffNoDowngrade holds of this answer, and the older release
      comes first. */
  lemma TheOlderReleaseComesFirst(client: Client, answer: StreamAnswer, advisory: IsAdvisory) returns (out: seq<Release>)
    ensures Rejected(Request(0)).None? && Sound(OneEdgeDown()) && Selected(Request(0), OneEdgeDown(), TheParts())
    ensures AnswersFrom(client, Request(0), OneEdgeDown(), answer, advisory, Ok(out), TheParts())
    ensures PrecedenceDistinct({Installed()} + Names(TheParts().targets))
    ensures out == [ReleaseOf(Nodes()[1]), ReleaseOf(Nodes()[0])] && Older() != Installed()
  {
    OlderPrecedes();
    TheRequestIsFine(0);
    TheSelection(0);
    NoStream(client, 0);
    TheNamesDiffer();
    BothAreAssembled();
    hide Sound, Selected, Rejected, NeedsStream, PrecedenceDistinct, Assembled, Nodes, Installed, Older, Names, Parse;
    out := [ReleaseOf(Nodes()[1]), ReleaseOf(Nodes()[0])];
  }

  /** With a lag of one, every hypothesis of WithheldNeverReappears holds of this answer. */
  lemma TheOnlySuccessorIsWithheld(client: Client, answer: StreamAnswer, advisory: IsAdvisory) returns (out: seq<Release>)
    ensures Rejected(Request(1)).None? && Sound(OneEdgeDown()) && Selected(Request(1), OneEdgeDown(), TheParts())
    ensures AnswersFrom(client, Request(1), OneEdgeDown(), answer, advisory, Ok(out), TheParts())
    ensures SuccessorsOrdered(TheParts())
    ensures TheParts().targets[0] !in DropHighest(TheParts().targets, 1)
    ensures out == [ReleaseOf(Nodes()[0])]
  {
    TheRequestIsFine(1);
    TheSelection(1);
    NoStream(client, 1);
    TheNamesDiffer();
    OneIsAssembled();
    hide Sound, Selected, Rejected, NeedsStream, SuccessorsOrdered, Assembled, Nodes, Installed;
    out := [ReleaseOf(Nodes()[0])];
  }
}
