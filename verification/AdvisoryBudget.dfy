/** The aggregate budget of enrichChangelogs: newest first, in place, within 24000 bytes. */
module AdvisoryBudget {
  import opened Orders
  import opened OpenShiftTypes
  import opened AdvisoryRender

  const MAX_CHANGELOG_BYTES: nat := 6000
  const MAX_AGGREGATE_CHANGELOG_BYTES: nat := 24000

  /** The advisory identifier of a release's changelog URL, when it has one. */
  type AdvisoryIDs = string -> Option<Text>

  function FallbackURL(id: Option<Text>): Text
  {
    Ascii("https://access.redhat.com/errata") + (if id.Some? then Ascii("/") + id.value else [])
  }

  function Fallback(id: Option<Text>): Text
  {
    Ascii("### Release advisory summary\n\n_Summary omitted to keep aggregated release notes within limits. See the [full advisory](")
    + FallbackURL(id) + Ascii(")._")
  }

  /** The short note that stands in for a release's own, by its changelog URL. */
  type FallbackNote = string -> Text

  function TotalBytes(releases: seq<Release>): nat
  {
    if releases == [] then 0
    else |releases[0].changelogContent| + TotalBytes(releases[1..])
  }

  /** What one release keeps of its content when the newer ones leave this many bytes. */
  function Fitted(release: Release, remaining: int, fallback: FallbackNote): Text
  {
    var content := release.changelogContent;
    if |content| <= remaining then content
    else if |fallback(release.changelogURL)| <= remaining then fallback(release.changelogURL)
    else []
  }

  /** The releases after the budget is spent newest first, that is, from the last one back. */
  function Trimmed(releases: seq<Release>, budget: int, fallback: FallbackNote): (trimmed: seq<Release>)
    ensures |trimmed| == |releases|
  {
    if releases == [] then []
    else
      var newer := Trimmed(releases[1..], budget, fallback);
      [releases[0].(changelogContent := Fitted(releases[0], budget - TotalBytes(newer), fallback))] + newer
  }

  /** The loop of enrichChangelogs, over the slice it rewrites. */
  method EnforceBudget(releases: array<Release>, ids: AdvisoryIDs)
    modifies releases
    ensures releases[..] == Trimmed(old(releases[..]), MAX_AGGREGATE_CHANGELOG_BYTES, url => Fallback(ids(url)))
  {
    hide Fallback, Trimmed, TotalBytes;
    ghost var note: FallbackNote := url => Fallback(ids(url));
    var remaining: int := MAX_AGGREGATE_CHANGELOG_BYTES;
    ghost var before := releases[..];
    ghost var trimmed: seq<Release> := [];
    var i := releases.Length;
    NothingToTrim(before, MAX_AGGREGATE_CHANGELOG_BYTES, note);
    while i > 0
      invariant 0 <= i <= releases.Length
      invariant releases[..i] == before[..i] && releases[i..] == trimmed
      invariant trimmed == Trimmed(before[i..], MAX_AGGREGATE_CHANGELOG_BYTES, note)
      invariant remaining == MAX_AGGREGATE_CHANGELOG_BYTES - TotalBytes(trimmed) && remaining >= 0
    {
      i := i - 1;
      TrimmedStep(before, i, MAX_AGGREGATE_CHANGELOG_BYTES, note);
      assert releases[i] == before[..i + 1][i] == before[i];
      assert releases[..i] == before[..i + 1][..i] == before[..i];
      var content := releases[i].changelogContent;
      if |content| > remaining {
        var fallback := Fallback(ids(releases[i].changelogURL));
        if |fallback| <= remaining {
          releases[i] := releases[i].(changelogContent := fallback);
          remaining := remaining - |fallback|;
        } else {
          releases[i] := releases[i].(changelogContent := []);
        }
      } else if content != [] {
        remaining := remaining - |content|;
      }
      trimmed := [releases[i]] + trimmed;
    }
    assert before[0..] == before && releases[..] == releases[0..];
  }

  lemma NothingToTrim(before: seq<Release>, budget: int, fallback: FallbackNote)
    ensures Trimmed(before[|before|..], budget, fallback) == [] && TotalBytes([]) == 0
  {}

  lemma TrimmedStep(before: seq<Release>, i: nat, budget: int, fallback: FallbackNote)
    requires i < |before|
    ensures var newer := Trimmed(before[i + 1..], budget, fallback);
      var fitted := before[i].(changelogContent := Fitted(before[i], budget - TotalBytes(newer), fallback));
      && Trimmed(before[i..], budget, fallback) == [fitted] + newer
      && TotalBytes([fitted] + newer) == |fitted.changelogContent| + TotalBytes(newer)
  {
    hide Fitted;
    assert before[i..][1..] == before[i + 1..];
  }

  // ---- What the budget promises

  /** The notes together stay within the budget, whatever the inputs. */
  lemma {:induction false} BudgetHolds(releases: seq<Release>, budget: nat, fallback: FallbackNote)
    ensures TotalBytes(Trimmed(releases, budget, fallback)) <= budget
  {
    if releases != [] {
      BudgetHolds(releases[1..], budget, fallback);
      var trimmed := Trimmed(releases, budget, fallback);
      assert trimmed[1..] == Trimmed(releases[1..], budget, fallback);
    }
  }

  lemma {:induction false} TrimmedSuffix(releases: seq<Release>, budget: int, fallback: FallbackNote, i: nat)
    requires i <= |releases|
    ensures Trimmed(releases, budget, fallback)[i..] == Trimmed(releases[i..], budget, fallback)
  {
    hide Fitted;
    var trimmed := Trimmed(releases, budget, fallback);
    if i == 0 {
      assert releases[0..] == releases && trimmed[0..] == trimmed;
    } else {
      TrimmedSuffix(releases[1..], budget, fallback, i - 1);
      assert releases[1..][i - 1..] == releases[i..];
      assert trimmed[1..] == Trimmed(releases[1..], budget, fallback);
      assert trimmed[1..][i - 1..] == trimmed[i..];
    }
  }

  /** The greedy rule, release by release: the whole note exactly when what the newer notes
      left has room for it, else the fallback exactly when there is room for that, else nothing. */
  lemma EachNoteIsFitted(releases: seq<Release>, budget: nat, fallback: FallbackNote, i: nat)
    requires i < |releases|
    ensures var trimmed := Trimmed(releases, budget, fallback);
      var room := budget - TotalBytes(trimmed[i + 1..]);
      var content, short := releases[i].changelogContent, fallback(releases[i].changelogURL);
      && trimmed[i] == releases[i].(changelogContent := trimmed[i].changelogContent)
      && trimmed[i].changelogContent
         == (if |content| <= room then content else if |short| <= room then short else [])
  {
    TrimmedSuffix(releases, budget, fallback, i);
    TrimmedSuffix(releases, budget, fallback, i + 1);
    assert releases[i..][1..] == releases[i + 1..];
    assert Trimmed(releases, budget, fallback)[i..][0] == Trimmed(releases, budget, fallback)[i];
  }

  /** Newest releases whose notes fit the budget together keep them word for word. */
  lemma {:induction false} NewestThatFitAreKept(releases: seq<Release>, budget: nat, fallback: FallbackNote, i: nat)
    requires i <= |releases| && TotalBytes(releases[i..]) <= budget
    ensures Trimmed(releases, budget, fallback)[i..] == releases[i..]
    decreases |releases| - i
  {
    hide Fitted;
    TrimmedSuffix(releases, budget, fallback, i);
    if i < |releases| {
      var rest := releases[i..];
      assert rest[1..] == releases[i + 1..] && rest[0] == releases[i];
      NewestThatFitAreKept(releases, budget, fallback, i + 1);
      TrimmedSuffix(releases, budget, fallback, i + 1);
      FittedWhenRoom(rest[0], budget - TotalBytes(rest[1..]), fallback);
      assert rest == [rest[0]] + rest[1..];
    }
  }

  lemma FittedWhenRoom(release: Release, room: int, fallback: FallbackNote)
    requires |release.changelogContent| <= room
    ensures release.(changelogContent := Fitted(release, room, fallback)) == release
  {}

  /** The releases that carry a note. */
  function Enriched(releases: seq<Release>): nat
  {
    if releases == [] then 0
    else (if releases[0].changelogContent != [] then 1 else 0) + Enriched(releases[1..])
  }

  lemma {:induction false} NotesWithinLimitAddUp(releases: seq<Release>)
    requires forall r :: r in releases ==> |r.changelogContent| <= MAX_CHANGELOG_BYTES
    ensures TotalBytes(releases) <= MAX_CHANGELOG_BYTES * Enriched(releases)
  {
    if releases != [] {
      assert releases[0] in releases;
      NotesWithinLimitAddUp(releases[1..]);
    }
  }

  /** With notes that the renderer kept within its limit, the newest four survive in full. */
  lemma NewestFourKeepTheirText(releases: seq<Release>, fallback: FallbackNote, i: nat)
    requires forall r :: r in releases ==> |r.changelogContent| <= MAX_CHANGELOG_BYTES
    requires i <= |releases| && Enriched(releases[i..]) <= 4
    ensures Trimmed(releases, MAX_AGGREGATE_CHANGELOG_BYTES, fallback)[i..] == releases[i..]
  {
    NotesWithinLimitAddUp(releases[i..]);
    NewestThatFitAreKept(releases, MAX_AGGREGATE_CHANGELOG_BYTES, fallback, i);
  }

  /** Text a release may carry: none, or a note rendered at the changelog limit from a summary
      that meets the exact conditions for it to stay within that limit. */
  ghost predicate IsContent(text: Text)
  {
    text == [] || exists s :: RendersAs(s, text)
  }

  ghost predicate RendersAs(s: Summary, text: Text)
  {
    IsNote(s, MAX_CHANGELOG_BYTES, text) && ReserveSuffices(s) && HeaderFits(s, MAX_CHANGELOG_BYTES)
  }

  lemma ContentWithinLimit(text: Text)
    requires IsContent(text)
    ensures |text| <= MAX_CHANGELOG_BYTES
  {
    hide IsNote, ReserveSuffices, HeaderFits;
    if text != [] {
      var s :| RendersAs(s, text);
      NoteWithinLimitIff(s, MAX_CHANGELOG_BYTES, text);
    }
  }

  /** Renderer and budget together: the newest four rendered notes are served in full. */
  lemma NewestFourNotesAreServedInFull(releases: seq<Release>, fallback: FallbackNote, i: nat)
    requires forall r :: r in releases ==> IsContent(r.changelogContent)
    requires i <= |releases| && Enriched(releases[i..]) <= 4
    ensures Trimmed(releases, MAX_AGGREGATE_CHANGELOG_BYTES, fallback)[i..] == releases[i..]
  {
    hide IsContent;
    forall r | r in releases ensures |r.changelogContent| <= MAX_CHANGELOG_BYTES { ContentWithinLimit(r.changelogContent); }
    NewestFourKeepTheirText(releases, fallback, i);
  }
}
