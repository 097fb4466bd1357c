/** renderAdvisoryMarkdown: a byte-limited release note with a reserve for its closing line. */
module AdvisoryRender {
  import opened OpenShiftTypes

  const SHORTENED_NOTICE_RESERVE: int := 1024
  const NEWLINE: byte := 10

  datatype Reference = Reference(id: Text, title: Text, url: Text)

  datatype Summary = Summary(
    id: Text, url: Text, issued: Text, updated: Text, synopsis: Text, kind: Text, severity: Text,
    issues: seq<Reference>, cves: seq<Reference>, related: seq<Reference>, releaseDocs: seq<Reference>)

  /** The bytes of an ASCII literal. */
  function Ascii(s: string): (t: Text)
    ensures |t| == |s|
  {
    seq(|s|, i requires 0 <= i < |s| => s[i] as int % 128)
  }

  /** An em dash between spaces, and a middle dot between spaces. */
  function Dash(): Text { [0x20, 0xE2, 0x80, 0x94, 0x20] }

  function Dot(): Text { [0x20, 0xC2, 0xB7, 0x20] }

  function MarkdownReference(ref: Reference): Text
  {
    var name := if ref.id == [] then ref.title else ref.id;
    var link := if ref.url != [] then Ascii("[") + name + Ascii("](") + ref.url + Ascii(")") else name;
    if ref.title != [] && ref.title != ref.id then link + Dash() + ref.title else link
  }

  function Meta(s: Summary): Text
  {
    Ascii("**Type:** ") + s.kind
    + (if s.severity != [] then Dot() + Ascii("**Severity:** ") + s.severity else [])
    + (if s.issued != [] then Dot() + Ascii("**Issued:** ") + s.issued else [])
    + (if s.updated != [] && s.updated != s.issued then Dot() + Ascii("**Updated:** ") + s.updated else [])
  }

  // ---- Lines

  /** appendRequired */
  function Append(b: Text, line: Text): (r: Text)
    ensures |r| <= |b| + 1 + |line|
  {
    if b == [] then line else b + [NEWLINE] + line
  }

  function AppendAll(b: Text, lines: seq<Text>): Text
  {
    if lines == [] then b else Append(AppendAll(b, lines[..|lines| - 1]), lines[|lines| - 1])
  }

  /** appendOptional's test */
  predicate Fits(b: Text, line: Text, limit: int)
  {
    |Append(b, line)| <= limit - SHORTENED_NOTICE_RESERVE
  }

  function Bullet(ref: Reference): Text
  {
    Ascii("- ") + MarkdownReference(ref)
  }

  function Bullets(refs: seq<Reference>): (lines: seq<Text>)
    ensures |lines| == |refs|
  {
    seq(|refs|, i requires 0 <= i < |refs| => Bullet(refs[i]))
  }

  /** The text with the first n references of a list. */
  function Listed(b: Text, refs: seq<Reference>, n: nat): Text
    requires n <= |refs|
  {
    AppendAll(b, Bullets(refs)[..n])
  }

  /** n lines fit one after the other, and the next, if any, does not. */
  ghost predicate Fitting(b: Text, lines: seq<Text>, limit: int, n: nat)
  {
    && n <= |lines|
    && (forall i :: 0 <= i < n ==> Fits(AppendAll(b, lines[..i]), lines[i], limit))
    && (n < |lines| ==> !Fits(AppendAll(b, lines[..n]), lines[n], limit))
  }

  lemma FittingIsUnique(b: Text, lines: seq<Text>, limit: int, m: nat, n: nat)
    requires Fitting(b, lines, limit, m) && Fitting(b, lines, limit, n)
    ensures m == n
  {}

  /** One list of references: lines until the first that does not fit. */
  method AppendReferences(b: Text, refs: seq<Reference>, limit: int) returns (out: Text, n: nat)
    ensures n <= |refs| && Fitting(b, Bullets(refs), limit, n) && out == Listed(b, refs, n)
  {
    hide MarkdownReference, Ascii, AppendAll, Append;
    ghost var lines := Bullets(refs);
    out, n := b, 0;
    NoLines(b, lines);
    while n < |refs|
      invariant n <= |refs| && out == AppendAll(b, lines[..n])
      invariant forall i :: 0 <= i < n ==> Fits(AppendAll(b, lines[..i]), lines[i], limit)
    {
      var line := Ascii("- ") + MarkdownReference(refs[n]);
      assert line == lines[n];
      if !Fits(out, line, limit) { return; }
      out := Append(out, line);
      AppendAllNext(b, lines, n);
      n := n + 1;
    }
  }

  lemma NoLines(b: Text, lines: seq<Text>)
    ensures AppendAll(b, lines[..0]) == b
  {}

  lemma AppendAllNext(b: Text, lines: seq<Text>, n: nat)
    requires n < |lines|
    ensures AppendAll(b, lines[..n + 1]) == Append(AppendAll(b, lines[..n]), lines[n])
  {
    assert lines[..n + 1][..n] == lines[..n];
  }

  // ---- The document

  function Header(s: Summary): Text
  {
    AppendAll([], [
      Ascii("### Release advisory summary"), [],
      Ascii("[") + s.id + Ascii("](") + s.url + Ascii(")") + Dash() + s.synopsis,
      Meta(s)])
  }

  function Closing(s: Summary, shortened: bool): Text
  {
    if shortened then
      Ascii("_Summary shortened to fit embedded release-note limits. See the [full advisory](") + s.url + Ascii(")._")
    else
      Ascii("_Source: [Red Hat advisory](") + s.url
      + Ascii("). This is a release advisory summary, not a complete source changelog._")
  }

  /** How many references of each list the document carries. */
  datatype Shown = Shown(issues: nat, cves: nat, related: nat, releaseDocs: nat)

  function Heading(b: Text, title: string, needed: bool): Text
  {
    if needed then AppendAll(b, [[], Ascii(title)]) else b
  }

  predicate WithinLists(s: Summary, shown: Shown)
  {
    && shown.issues <= |s.issues| && shown.cves <= |s.cves|
    && shown.related <= |s.related| && shown.releaseDocs <= |s.releaseDocs|
  }

  function AfterIssues(s: Summary, shown: Shown): Text
    requires WithinLists(s, shown)
  {
    Listed(Heading(Header(s), "**Fixes**", s.issues != []), s.issues, shown.issues)
  }

  function AfterCVEs(s: Summary, shown: Shown): Text
    requires WithinLists(s, shown)
  {
    Listed(Heading(AfterIssues(s, shown), "**CVEs**", s.cves != []), s.cves, shown.cves)
  }

  function BeforeRelated(s: Summary, shown: Shown): Text
    requires WithinLists(s, shown)
  {
    Heading(AfterCVEs(s, shown), "**Related**", s.related != [] || s.releaseDocs != [])
  }

  /** Everything but the closing line. */
  function Body(s: Summary, shown: Shown): Text
    requires WithinLists(s, shown)
  {
    Listed(Listed(BeforeRelated(s, shown), s.related, shown.related), s.releaseDocs, shown.releaseDocs)
  }

  predicate Omits(s: Summary, shown: Shown)
  {
    || shown.issues < |s.issues| || shown.cves < |s.cves|
    || shown.related < |s.related| || shown.releaseDocs < |s.releaseDocs|
  }

  /** Each list is cut exactly at its first reference that does not fit where it stands. */
  ghost predicate CutToFit(s: Summary, limit: int, shown: Shown)
  {
    && WithinLists(s, shown)
    && Fitting(Heading(Header(s), "**Fixes**", s.issues != []), Bullets(s.issues), limit, shown.issues)
    && Fitting(Heading(AfterIssues(s, shown), "**CVEs**", s.cves != []), Bullets(s.cves), limit, shown.cves)
    && Fitting(BeforeRelated(s, shown), Bullets(s.related), limit, shown.related)
    && Fitting(Listed(BeforeRelated(s, shown), s.related, shown.related), Bullets(s.releaseDocs), limit, shown.releaseDocs)
  }

  /** The note: everything shown, then a closing line that says whether anything was left out. */
  function Document(s: Summary, shown: Shown): Text
    requires WithinLists(s, shown)
  {
    AppendAll(Body(s, shown), [[], Closing(s, Omits(s, shown))])
  }

  /** text is the note of this summary at this limit; there is only one (CutToFitIsUnique). */
  ghost predicate IsNote(s: Summary, limit: int, text: Text)
  {
    exists shown :: CutToFit(s, limit, shown) && text == Document(s, shown)
  }

  method Render(s: Summary, limit: int) returns (text: Text)
    ensures IsNote(s, limit, text)
  {
    hide AppendAll, Append, Meta, Closing, Fitting, Bullets, Header, Heading, Listed;
    var b := Header(s);
    var shortened := false;
    var issues, cves, related, docs := 0, 0, 0, 0;
    b := Heading(b, "**Fixes**", s.issues != []);
    b, issues := AppendReferences(b, s.issues, limit);
    shortened := issues < |s.issues|;
    b := Heading(b, "**CVEs**", s.cves != []);
    b, cves := AppendReferences(b, s.cves, limit);
    shortened := shortened || cves < |s.cves|;
    b := Heading(b, "**Related**", s.related != [] || s.releaseDocs != []);
    b, related := AppendReferences(b, s.related, limit);
    shortened := shortened || related < |s.related|;
    b, docs := AppendReferences(b, s.releaseDocs, limit);
    shortened := shortened || docs < |s.releaseDocs|;
    ghost var shown := Shown(issues, cves, related, docs);
    text := AppendAll(b, [[], Closing(s, shortened)]);
    assert CutToFit(s, limit, shown) && text == Document(s, shown);
  }

  /** What is shown, and so the note, is determined by the summary and the limit. */
  lemma CutToFitIsUnique(s: Summary, limit: int, a: Shown, b: Shown)
    requires CutToFit(s, limit, a) && CutToFit(s, limit, b)
    ensures a == b
  {
    hide Fitting, Heading, Listed, Header, Bullets;
    FittingIsUnique(Heading(Header(s), "**Fixes**", s.issues != []), Bullets(s.issues), limit, a.issues, b.issues);
    FittingIsUnique(Heading(AfterIssues(s, a), "**CVEs**", s.cves != []), Bullets(s.cves), limit, a.cves, b.cves);
    FittingIsUnique(BeforeRelated(s, a), Bullets(s.related), limit, a.related, b.related);
    FittingIsUnique(Listed(BeforeRelated(s, a), s.related, a.related), Bullets(s.releaseDocs), limit, a.releaseDocs, b.releaseDocs);
  }

  // ---- What the note promises

  lemma {:induction false} AppendAllExtends(b: Text, lines: seq<Text>, n: nat)
    requires n <= |lines|
    ensures AppendAll(b, lines[..n]) <= AppendAll(b, lines)
  {
    if n == |lines| {
      assert lines[..n] == lines;
    } else {
      var init := lines[..|lines| - 1];
      AppendAllExtends(b, init, n);
      assert init[..n] == lines[..n];
    }
  }

  lemma HeadingExtends(b: Text, title: string, needed: bool)
    ensures b <= Heading(b, title, needed)
    ensures b != [] && needed ==> |Heading(b, title, needed)| == |b| + 2 + |title|
  {
    var line := Ascii(title);
    var lines := [[], line];
    assert lines[..1] == [[]] && lines[..0] == [];
    assert AppendAll(b, lines[..1]) == Append(b, []) by { AppendAllNext(b, lines, 0); }
    assert AppendAll(b, lines) == Append(Append(b, []), line);
    assert needed ==> Heading(b, title, needed) == AppendAll(b, lines);
  }

  /** A list that fits leaves the text within the unreserved part, or as it was. */
  lemma ListedWithin(b: Text, refs: seq<Reference>, limit: int, n: nat)
    requires Fitting(b, Bullets(refs), limit, n)
    ensures b <= Listed(b, refs, n)
    ensures n == 0 ==> Listed(b, refs, n) == b
    ensures n > 0 ==> |Listed(b, refs, n)| <= limit - SHORTENED_NOTICE_RESERVE
  {
    var lines := Bullets(refs);
    hide Bullets;
    var shown := lines[..n];
    AppendAllExtends(b, shown, 0);
    assert AppendAll(b, shown[..0]) == b;
    if n > 0 { AppendAllNext(b, lines, n - 1); }
  }

  /** The bytes that are written whether or not they fit: headings and the closing line. */
  function Overhead(s: Summary, shortened: bool): nat
  {
    (if s.issues != [] then 2 + |"**Fixes**"| else 0) + (if s.cves != [] then 2 + |"**CVEs**"| else 0)
    + (if s.related != [] || s.releaseDocs != [] then 2 + |"**Related**"| else 0) + 2 + |Closing(s, shortened)|
  }

  /** The note stays within its limit when the required header leaves the reserve free and the
      headings and closing line fit in the reserve. */
  lemma NoteStaysWithinLimit(s: Summary, limit: int, shown: Shown)
    requires CutToFit(s, limit, shown)
    requires |Header(s)| <= limit - SHORTENED_NOTICE_RESERVE
    requires Overhead(s, Omits(s, shown)) <= SHORTENED_NOTICE_RESERVE
    ensures |Document(s, shown)| <= limit
  {
    hide AppendAll, Append, Closing, Fitting, Heading, Listed, Header;
    HeaderIsNotEmpty(s);
    var issues := Heading(Header(s), "**Fixes**", s.issues != []);
    HeadingExtends(Header(s), "**Fixes**", s.issues != []);
    ListedWithin(issues, s.issues, limit, shown.issues);
    HeadingExtends(AfterIssues(s, shown), "**CVEs**", s.cves != []);
    ListedWithin(Heading(AfterIssues(s, shown), "**CVEs**", s.cves != []), s.cves, limit, shown.cves);
    HeadingExtends(AfterCVEs(s, shown), "**Related**", s.related != [] || s.releaseDocs != []);
    ListedWithin(BeforeRelated(s, shown), s.related, limit, shown.related);
    ListedWithin(Listed(BeforeRelated(s, shown), s.related, shown.related), s.releaseDocs, limit, shown.releaseDocs);
    UnneededHeadings(s, shown);
    ClosingLength(Body(s, shown), Closing(s, Omits(s, shown)));
  }

  lemma HeaderIsNotEmpty(s: Summary)
    ensures Header(s) != []
  {
    var first := Ascii("### Release advisory summary");
    var lines := [first, [], Ascii("[") + s.id + Ascii("](") + s.url + Ascii(")") + Dash() + s.synopsis, Meta(s)];
    hide Ascii, Meta;
    AppendAllNext([], lines, 3);
    assert lines[..4] == lines;
    AppendAllExtends([], lines, 3);
  }

  lemma UnneededHeadings(s: Summary, shown: Shown)
    requires WithinLists(s, shown)
    ensures s.issues == [] ==> AfterIssues(s, shown) == Header(s)
    ensures s.cves == [] ==> AfterCVEs(s, shown) == AfterIssues(s, shown)
    ensures s.related == [] && s.releaseDocs == [] ==> Body(s, shown) == AfterCVEs(s, shown)
  {
    hide Header, Bullets;
    assert Bullets([])[..0] == [];
  }

  lemma ClosingLength(b: Text, closing: Text)
    requires b != []
    ensures |AppendAll(b, [[], closing])| == |b| + 2 + |closing|
  {
    var lines := [[], closing];
    assert lines[..1] == [[]] && lines[..0] == [];
    assert AppendAll(b, lines[..1]) == Append(b, []) by { AppendAllNext(b, lines, 0); }
    assert AppendAll(b, lines) == Append(Append(b, []), closing);
  }

  /** An errata URL of up to 800 bytes keeps headings and closing line within the reserve. */
  lemma ShortURLFitsTheReserve(s: Summary)
    requires |s.url| <= 800
    ensures ReserveSuffices(s)
  {
    var p, q := Ascii("_Summary shortened to fit embedded release-note limits. See the [full advisory]("), Ascii(")._");
    var u := Ascii("_Source: [Red Hat advisory](");
    var v := Ascii("). This is a release advisory summary, not a complete source changelog._");
    assert Closing(s, true) == p + s.url + q && Closing(s, false) == u + s.url + v;
    assert |p| < 100 && |q| < 10 && |u| < 50 && |v| < 100;
  }

  // ---- A header that reaches into the reserve

  /** Nothing is listed from a text that already reaches into the reserve. */
  lemma NothingFits(b: Text, refs: seq<Reference>, limit: int, n: nat)
    requires |b| > limit - SHORTENED_NOTICE_RESERVE
    ensures Fitting(b, Bullets(refs), limit, n) <==> n == 0
    ensures Listed(b, refs, 0) == b
  {
    var lines := Bullets(refs);
    hide Bullets;
    NoLines(b, lines);
    if lines != [] { assert !Fits(AppendAll(b, lines[..0]), lines[0], limit); }
  }

  /** What is shown under such a header: nothing, and that is the only cut. */
  lemma LongHeaderShowsNothing(s: Summary, limit: int, shown: Shown)
    requires |Header(s)| > limit - SHORTENED_NOTICE_RESERVE
    ensures CutToFit(s, limit, shown) <==> shown == Shown(0, 0, 0, 0)
  {
    hide Fitting, Heading, Listed, Header, Bullets;
    var none := Shown(0, 0, 0, 0);
    var issues := Heading(Header(s), "**Fixes**", s.issues != []);
    HeadingExtends(Header(s), "**Fixes**", s.issues != []);
    NothingFits(issues, s.issues, limit, shown.issues);
    NothingFits(issues, s.issues, limit, 0);
    var cves := Heading(AfterIssues(s, none), "**CVEs**", s.cves != []);
    HeadingExtends(AfterIssues(s, none), "**CVEs**", s.cves != []);
    NothingFits(cves, s.cves, limit, shown.cves);
    NothingFits(cves, s.cves, limit, 0);
    HeadingExtends(AfterCVEs(s, none), "**Related**", s.related != [] || s.releaseDocs != []);
    NothingFits(BeforeRelated(s, none), s.related, limit, shown.related);
    NothingFits(BeforeRelated(s, none), s.related, limit, 0);
    NothingFits(Listed(BeforeRelated(s, none), s.related, 0), s.releaseDocs, limit, shown.releaseDocs);
    NothingFits(Listed(BeforeRelated(s, none), s.related, 0), s.releaseDocs, limit, 0);
  }

  /** The length of such a note: its header and what is written whether or not it fits. */
  lemma BareNoteLength(s: Summary)
    ensures |Document(s, Shown(0, 0, 0, 0))| == |Header(s)| + Overhead(s, HasReferences(s))
  {
    hide AppendAll, Append, Closing, Heading, Header, Bullets;
    var none := Shown(0, 0, 0, 0);
    HeaderIsNotEmpty(s);
    ListedNothing(Heading(Header(s), "**Fixes**", s.issues != []), s.issues);
    ListedNothing(Heading(AfterIssues(s, none), "**CVEs**", s.cves != []), s.cves);
    ListedNothing(BeforeRelated(s, none), s.related);
    ListedNothing(BeforeRelated(s, none), s.releaseDocs);
    hide Listed;
    HeadingExtends(Header(s), "**Fixes**", s.issues != []);
    HeadingExtends(AfterIssues(s, none), "**CVEs**", s.cves != []);
    HeadingExtends(AfterCVEs(s, none), "**Related**", s.related != [] || s.releaseDocs != []);
    UnneededHeadings(s, none);
    ClosingLength(Body(s, none), Closing(s, Omits(s, none)));
  }

  lemma ListedNothing(b: Text, refs: seq<Reference>)
    ensures Listed(b, refs, 0) == b
  {
    NoLines(b, Bullets(refs));
  }

  /** Headings and either closing line fit in the reserve. */
  ghost predicate ReserveSuffices(s: Summary)
  {
    forall shortened :: Overhead(s, shortened) <= SHORTENED_NOTICE_RESERVE
  }

  /** The header leaves the reserve free, or it fits with what is written in any case. */
  predicate HeaderFits(s: Summary, limit: int)
  {
    |Header(s)| <= limit - SHORTENED_NOTICE_RESERVE || |Header(s)| + Overhead(s, HasReferences(s)) <= limit
  }

  /** When headings and closing line fit in the reserve, the note is within its limit exactly when
      the header leaves the reserve free, or header, headings and closing line fit by themselves. */
  lemma NoteWithinLimitIff(s: Summary, limit: int, text: Text)
    requires IsNote(s, limit, text) && ReserveSuffices(s)
    ensures |text| <= limit <==> HeaderFits(s, limit)
  {
    hide Header, Overhead;
    var shown :| CutToFit(s, limit, shown) && text == Document(s, shown);
    hide CutToFit, Document;
    assert Overhead(s, Omits(s, shown)) <= SHORTENED_NOTICE_RESERVE;
    if |Header(s)| <= limit - SHORTENED_NOTICE_RESERVE {
      NoteStaysWithinLimit(s, limit, shown);
    } else {
      LongHeaderShowsNothing(s, limit, shown);
      BareNoteLength(s);
    }
  }

  /** So a type as long as the limit always breaks it: there is a note, and it is too long. */
  lemma LongTypeBreaksTheLimit(s: Summary, limit: nat) returns (text: Text)
    requires |s.kind| >= limit
    ensures IsNote(s, limit, text) && |text| > limit
  {
    hide Overhead, CutToFit, Document;
    HeaderHoldsType(s);
    LongHeaderShowsNothing(s, limit, Shown(0, 0, 0, 0));
    BareNoteLength(s);
    text := Document(s, Shown(0, 0, 0, 0));
  }

  lemma HeaderHoldsType(s: Summary)
    ensures |Header(s)| > |s.kind|
  {
    var title := Ascii("### Release advisory summary");
    var lines := [title, [], Ascii("[") + s.id + Ascii("](") + s.url + Ascii(")") + Dash() + s.synopsis, Meta(s)];
    hide Ascii, Dash;
    assert lines[..4] == lines;
    AppendAllNext([], lines, 3);
    assert |Meta(s)| >= |Ascii("**Type:** ")| + |s.kind|;
  }

  // ---- When a note is shortened

  /** The document with every reference shown. */
  function All(s: Summary): Shown
  {
    Shown(|s.issues|, |s.cves|, |s.related|, |s.releaseDocs|)
  }

  predicate HasReferences(s: Summary)
  {
    s.issues != [] || s.cves != [] || s.related != [] || s.releaseDocs != []
  }

  lemma {:induction false} AllListedFits(b: Text, refs: seq<Reference>, limit: int, n: nat)
    requires Fitting(b, Bullets(refs), limit, n)
    requires |Listed(b, refs, |refs|)| <= limit - SHORTENED_NOTICE_RESERVE
    ensures n == |refs|
  {
    var lines := Bullets(refs);
    hide Bullets, Append, AppendAll;
    assert lines[..|refs|] == lines;
    if n < |refs| {
      AppendAllNext(b, lines, n);
      AppendAllExtends(b, lines, n + 1);
    }
  }

  lemma ListedExtends(b: Text, refs: seq<Reference>, n: nat)
    requires n <= |refs|
    ensures b <= Listed(b, refs, n)
  {
    var shown := Bullets(refs)[..n];
    AppendAllExtends(b, shown, 0);
    assert AppendAll(b, shown[..0]) == b;
  }

  /** The closing line says "shortened" exactly when the text with every reference would reach
      into the reserve: a reference is never dropped otherwise. */
  lemma ShortenedIffTooLong(s: Summary, limit: int, shown: Shown)
    requires CutToFit(s, limit, shown)
    ensures Omits(s, shown) <==> HasReferences(s) && |Body(s, All(s))| > limit - SHORTENED_NOTICE_RESERVE
  {
    hide Fitting, Heading, Listed, Header;
    if !HasReferences(s) {
    } else if !Omits(s, shown) {
      assert shown == All(s);
      LastListWithin(s, limit, shown);
    } else if |Body(s, All(s))| <= limit - SHORTENED_NOTICE_RESERVE {
      AllOfBodyFits(s, limit, shown);
      assert false;
    }
  }

  lemma LastListWithin(s: Summary, limit: int, shown: Shown)
    requires CutToFit(s, limit, shown) && !Omits(s, shown) && HasReferences(s)
    ensures |Body(s, shown)| <= limit - SHORTENED_NOTICE_RESERVE
  {
    hide Fitting, Heading, Listed, Header;
    UnneededHeadings(s, shown);
    var related := Listed(BeforeRelated(s, shown), s.related, shown.related);
    ListedWithin(related, s.releaseDocs, limit, shown.releaseDocs);
    ListedWithin(BeforeRelated(s, shown), s.related, limit, shown.related);
    ListedWithin(Heading(AfterIssues(s, shown), "**CVEs**", s.cves != []), s.cves, limit, shown.cves);
    ListedWithin(Heading(Header(s), "**Fixes**", s.issues != []), s.issues, limit, shown.issues);
  }

  lemma AllOfBodyFits(s: Summary, limit: int, shown: Shown)
    requires CutToFit(s, limit, shown) && |Body(s, All(s))| <= limit - SHORTENED_NOTICE_RESERVE
    ensures !Omits(s, shown)
  {
    hide Fitting, Heading, Listed, Header;
    var all := All(s);
    var related := Listed(BeforeRelated(s, all), s.related, |s.related|);
    ListedExtends(related, s.releaseDocs, |s.releaseDocs|);
    ListedExtends(BeforeRelated(s, all), s.related, |s.related|);
    HeadingExtends(AfterCVEs(s, all), "**Related**", s.related != [] || s.releaseDocs != []);
    ListedExtends(Heading(AfterIssues(s, all), "**CVEs**", s.cves != []), s.cves, |s.cves|);
    HeadingExtends(AfterIssues(s, all), "**CVEs**", s.cves != []);
    AllListedFits(Heading(Header(s), "**Fixes**", s.issues != []), s.issues, limit, shown.issues);
    AllListedFits(Heading(AfterIssues(s, all), "**CVEs**", s.cves != []), s.cves, limit, shown.cves);
    AllListedFits(BeforeRelated(s, all), s.related, limit, shown.related);
    AllListedFits(related, s.releaseDocs, limit, shown.releaseDocs);
  }
}
