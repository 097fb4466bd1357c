/** The note as a reader sees it: its lines, and the closing line that tells what was left out. */
module AdvisoryNote {
  import opened OpenShiftTypes
  import opened AdvisoryRender

  /** Texts with a separator between them. */
  function JoinWith(separator: Text, texts: seq<Text>): Text
    requires texts != []
  {
    var n := |texts| - 1;
    if n == 0 then texts[0] else JoinWith(separator, texts[..n]) + separator + texts[n]
  }

  lemma {:induction false} AppendedLines(before: seq<Text>, lines: seq<Text>)
    requires before != [] && before[0] != []
    ensures JoinWith([NEWLINE], before) != []
    ensures AppendAll(JoinWith([NEWLINE], before), lines) == JoinWith([NEWLINE], before + lines)
  {
    JoinedIsNotEmpty(before);
    if lines == [] {
      assert before + lines == before;
    } else {
      var n := |lines| - 1;
      AppendedLines(before, lines[..n]);
      JoinedIsNotEmpty(before + lines[..n]);
      var all := before + lines;
      assert all[..|all| - 1] == before + lines[..n] && all[|all| - 1] == lines[n];
    }
  }

  lemma {:induction false} JoinedIsNotEmpty(lines: seq<Text>)
    requires lines != [] && lines[0] != []
    ensures JoinWith([NEWLINE], lines) != []
  {
  }

  // ---- The lines

  /** "- [name](url) — title", without a link when there is no URL, and without the title when it is
      empty or the identifier again. */
  ghost predicate IsNamedBullet(line: Text, ref: Reference, name: Text)
  {
    var plain := ref.title == [] || ref.title == ref.id;
    && (ref.url == [] && plain ==> line == Ascii("- ") + name)
    && (ref.url == [] && !plain ==> line == Ascii("- ") + (name + Dash() + ref.title))
    && (ref.url != [] && plain ==> line == Ascii("- ") + (Ascii("[") + name + Ascii("](") + ref.url + Ascii(")")))
    && (ref.url != [] && !plain ==>
          line == Ascii("- ") + (Ascii("[") + name + Ascii("](") + ref.url + Ascii(")") + Dash() + ref.title))
  }

  /** The name is the identifier, or the title when there is none. */
  ghost predicate IsBullet(line: Text, ref: Reference)
  {
    && (ref.id != [] ==> IsNamedBullet(line, ref, ref.id))
    && (ref.id == [] ==> IsNamedBullet(line, ref, ref.title))
  }

  lemma BulletForms(ref: Reference)
    ensures IsBullet(Bullet(ref), ref)
  {
    hide Ascii, Dash;
  }

  /** The first n references of a list, one line each. */
  ghost predicate AreBullets(lines: seq<Text>, refs: seq<Reference>, n: nat)
  {
    |lines| == n <= |refs| && forall i :: 0 <= i < n ==> IsBullet(lines[i], refs[i])
  }

  lemma BulletsAre(refs: seq<Reference>, n: nat)
    requires n <= |refs|
    ensures AreBullets(Bullets(refs)[..n], refs, n)
  {
    hide IsBullet, Bullet;
    forall i | 0 <= i < n ensures IsBullet(Bullets(refs)[..n][i], refs[i]) { BulletForms(refs[i]); }
  }

  function Title(title: string, needed: bool): seq<Text>
  {
    if needed then [[], Ascii(title)] else []
  }

  /** The lists' lines of a note, list by list. */
  datatype Lists = Lists(issues: seq<Text>, cves: seq<Text>, related: seq<Text>, releaseDocs: seq<Text>)

  ghost predicate ListsOf(s: Summary, shown: Shown, lists: Lists)
  {
    && AreBullets(lists.issues, s.issues, shown.issues) && AreBullets(lists.cves, s.cves, shown.cves)
    && AreBullets(lists.related, s.related, shown.related) && AreBullets(lists.releaseDocs, s.releaseDocs, shown.releaseDocs)
  }

  /** The type, and what is known of severity and dates; an unchanged date is not repeated. */
  function MetaFields(s: Summary): seq<Text>
  {
    [Ascii("**Type:** ") + s.kind]
    + (if s.severity == [] then [] else [Ascii("**Severity:** ") + s.severity])
    + (if s.issued == [] then [] else [Ascii("**Issued:** ") + s.issued])
    + (if s.updated == [] || s.updated == s.issued then [] else [Ascii("**Updated:** ") + s.updated])
  }

  function Tail(separator: Text, more: seq<Text>): Text
  {
    if more == [] then [] else separator + more[0]
  }

  lemma JoinedFields(separator: Text, first: Text, a: seq<Text>, b: seq<Text>, c: seq<Text>)
    requires |a| <= 1 && |b| <= 1 && |c| <= 1
    ensures JoinWith(separator, [first] + a + b + c) == first + Tail(separator, a) + Tail(separator, b) + Tail(separator, c)
  {
    JoinedOneMore(separator, [first], a);
    JoinedOneMore(separator, [first] + a, b);
    JoinedOneMore(separator, [first] + a + b, c);
  }

  lemma JoinedOneMore(separator: Text, texts: seq<Text>, more: seq<Text>)
    requires texts != [] && |more| <= 1
    ensures JoinWith(separator, texts + more) == JoinWith(separator, texts) + Tail(separator, more)
  {
    if more == [] {
      assert texts + more == texts;
    } else {
      assert (texts + more)[..|texts|] == texts;
    }
  }

  lemma LabelledTail(separator: Text, name: Text, value: Text)
    ensures Tail(separator, [name + value]) == separator + name + value
    ensures Tail(separator, []) == []
  {
  }

  lemma MetaIsItsFields(s: Summary)
    ensures Meta(s) == JoinWith(Dot(), MetaFields(s))
  {
    var severity := if s.severity == [] then [] else [Ascii("**Severity:** ") + s.severity];
    var issued := if s.issued == [] then [] else [Ascii("**Issued:** ") + s.issued];
    var updated := if s.updated == [] || s.updated == s.issued then [] else [Ascii("**Updated:** ") + s.updated];
    hide Ascii, Dot, JoinWith, Tail;
    JoinedFields(Dot(), Ascii("**Type:** ") + s.kind, severity, issued, updated);
    LabelledTail(Dot(), Ascii("**Severity:** "), s.severity);
    LabelledTail(Dot(), Ascii("**Issued:** "), s.issued);
    LabelledTail(Dot(), Ascii("**Updated:** "), s.updated);
  }

  function Top(s: Summary): seq<Text>
  {
    [Ascii("### Release advisory summary"), [], Ascii("[") + s.id + Ascii("](") + s.url + Ascii(")") + Dash() + s.synopsis,
     JoinWith(Dot(), MetaFields(s))]
  }

  /** Everything but the closing line. */
  function BodyLines(s: Summary, lists: Lists): seq<Text>
  {
    Top(s) + Title("**Fixes**", s.issues != []) + lists.issues + Title("**CVEs**", s.cves != []) + lists.cves
    + Title("**Related**", s.related != [] || s.releaseDocs != []) + lists.related + lists.releaseDocs
  }

  lemma HeaderLines(s: Summary)
    ensures Top(s) != [] && Top(s)[0] != [] && Header(s) == JoinWith([NEWLINE], Top(s))
  {
    MetaIsItsFields(s);
    var top := Top(s);
    assert |top[0]| == |"### Release advisory summary"|;
    hide Ascii, Dash, Meta, MetaFields;
    assert top[..4] == top;
    AppendAllNext([], top, 0);
    AppendAllNext([], top, 1);
    AppendAllNext([], top, 2);
    AppendAllNext([], top, 3);
    assert top[..3][..2] == top[..2] && top[..2][..1] == top[..1];
    assert AppendAll([], top[..0]) == [] && AppendAll([], top[..1]) == top[0];
    hide AppendAll;
    assert JoinWith([NEWLINE], top[..1]) == top[0];
    assert JoinWith([NEWLINE], top[..2]) == AppendAll([], top[..2]);
  }

  lemma ListedLines(before: seq<Text>, title: string, needed: bool, refs: seq<Reference>, n: nat)
    requires before != [] && before[0] != [] && n <= |refs|
    ensures Listed(Heading(JoinWith([NEWLINE], before), title, needed), refs, n)
         == JoinWith([NEWLINE], before + Title(title, needed) + Bullets(refs)[..n])
  {
    hide Ascii, Bullets, AppendAll, JoinWith;
    AppendedLines(before, Title(title, needed));
    AppendedLines(before + Title(title, needed), Bullets(refs)[..n]);
    if !needed { assert before + Title(title, needed) == before; }
  }

  lemma BodyIsItsLines(s: Summary, shown: Shown)
    requires WithinLists(s, shown)
    ensures var lists := Lists(Bullets(s.issues)[..shown.issues], Bullets(s.cves)[..shown.cves],
                               Bullets(s.related)[..shown.related], Bullets(s.releaseDocs)[..shown.releaseDocs]);
      Body(s, shown) == JoinWith([NEWLINE], BodyLines(s, lists))
  {
    HeaderLines(s);
    var top := Top(s);
    hide Header, Top, Ascii, Bullets, AppendAll, JoinWith, Heading, Listed, Title;
    var fixes := top + Title("**Fixes**", s.issues != []) + Bullets(s.issues)[..shown.issues];
    ListedLines(top, "**Fixes**", s.issues != [], s.issues, shown.issues);
    var cves := fixes + Title("**CVEs**", s.cves != []) + Bullets(s.cves)[..shown.cves];
    ListedLines(fixes, "**CVEs**", s.cves != [], s.cves, shown.cves);
    var needed := s.related != [] || s.releaseDocs != [];
    var related := cves + Title("**Related**", needed) + Bullets(s.related)[..shown.related];
    ListedLines(cves, "**Related**", needed, s.related, shown.related);
    MoreLines(related, s.releaseDocs, shown.releaseDocs);
  }

  lemma MoreLines(before: seq<Text>, refs: seq<Reference>, n: nat)
    requires before != [] && before[0] != [] && n <= |refs|
    ensures Listed(JoinWith([NEWLINE], before), refs, n) == JoinWith([NEWLINE], before + Bullets(refs)[..n])
  {
    hide Bullets, AppendAll, JoinWith;
    AppendedLines(before, Bullets(refs)[..n]);
  }

  /** What a closing line says. */
  ghost predicate Closes(s: Summary, complete: bool, closing: Text)
  {
    closing ==
      if complete then
        Ascii("_Source: [Red Hat advisory](") + s.url
        + Ascii("). This is a release advisory summary, not a complete source changelog._")
      else
        Ascii("_Summary shortened to fit embedded release-note limits. See the [full advisory](") + s.url + Ascii(")._")
  }

  lemma ClosingCloses(s: Summary, shown: Shown)
    requires WithinLists(s, shown)
    ensures Closes(s, shown == Shown(|s.issues|, |s.cves|, |s.related|, |s.releaseDocs|), Closing(s, Omits(s, shown)))
  {
    hide Ascii;
  }

  lemma DocumentIsItsLines(s: Summary, shown: Shown, lists: Lists, closing: Text)
    requires WithinLists(s, shown) && Body(s, shown) == JoinWith([NEWLINE], BodyLines(s, lists))
    requires closing == Closing(s, Omits(s, shown))
    ensures Document(s, shown) == JoinWith([NEWLINE], BodyLines(s, lists) + [[], closing])
  {
    HeaderLines(s);
    hide Top, AppendAll, JoinWith, Body, Closing, Omits, Title;
    assert BodyLines(s, lists)[0] == Top(s)[0];
    AppendedLines(BodyLines(s, lists), [[], closing]);
  }

  lemma ShownIsListed(s: Summary, shown: Shown) returns (lists: Lists)
    requires WithinLists(s, shown)
    ensures ListsOf(s, shown, lists) && Body(s, shown) == JoinWith([NEWLINE], BodyLines(s, lists))
  {
    lists := Lists(Bullets(s.issues)[..shown.issues], Bullets(s.cves)[..shown.cves],
                   Bullets(s.related)[..shown.related], Bullets(s.releaseDocs)[..shown.releaseDocs]);
    BulletsAre(s.issues, shown.issues);
    BulletsAre(s.cves, shown.cves);
    BulletsAre(s.related, shown.related);
    BulletsAre(s.releaseDocs, shown.releaseDocs);
    BodyIsItsLines(s, shown);
    hide Body, BodyLines, JoinWith, AreBullets;
  }

  /** A note is its lines joined by newlines: the header, each list under its heading up to what is
      shown, a blank line, and a closing line that says "shortened" exactly when something is not
      shown. */
  lemma NoteIsItsLines(s: Summary, limit: int, text: Text) returns (shown: Shown, lists: Lists, closing: Text)
    requires IsNote(s, limit, text)
    ensures CutToFit(s, limit, shown) && ListsOf(s, shown, lists)
    ensures text == JoinWith([NEWLINE], BodyLines(s, lists) + [[], closing])
    ensures Closes(s, shown == Shown(|s.issues|, |s.cves|, |s.related|, |s.releaseDocs|), closing)
  {
    shown :| CutToFit(s, limit, shown) && text == Document(s, shown);
    closing := Closing(s, Omits(s, shown));
    hide Closing, Closes, Fitting, Body, BodyLines, Document, JoinWith, Omits, ListsOf;
    ClosingCloses(s, shown);
    lists := ShownIsListed(s, shown);
    DocumentIsItsLines(s, shown, lists, closing);
  }
}
