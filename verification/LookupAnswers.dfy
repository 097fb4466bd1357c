/** When an OpenShift lookup is answered, and with what: stated over configurations, histories and
    clock readings, for every lookup of every run. */
module LookupAnswers {
  import opened OpenShiftTypes
  import opened LookupProtocol
  import opened LookupSafety

  /** A time that is set, and no older than the configured age: 24 hours when that is not positive. */
  predicate Young(maxSnapshotAge: int, generatedAt: int, now: int)
  {
    generatedAt != 0 && now - generatedAt <= if maxSnapshotAge > 0 then maxSnapshotAge else 24 * 3600 * 1_000_000_000
  }

  /** A result for the key is retained, and young enough to serve. */
  predicate RetainedIsYoung(s: State, req: UpdateRequest, now: int)
  {
    req in s.snapshots && Young(s.cfg.maxSnapshotAge, s.snapshots[req].generatedAt, now)
  }

  ghost predicate NewerPublished(s: State, req: UpdateRequest, attempt: nat)
  {
    exists i :: 0 <= i < |s.published| && s.published[i].req == req && s.published[i].attempt > attempt
  }

  /** Nothing about the results changes: no history, no retained result, no configuration. */
  predicate ResultsUntouched(s: State, t: State)
  {
    t.published == s.published && t.snapshots == s.snapshots && t.cfg == s.cfg && t.generation == s.generation
  }

  ghost predicate Finishes(states: seq<State>, steps: seq<Step>, i: nat, j: nat)
  {
    && Run(states, steps) && i < j < |steps| && steps[i].Begin? && steps[j].Finish?
    && steps[j].ticket == states[i + 1].attempt
  }

  /** The lookup's generation and URL are still the configured ones. */
  predicate SameConfiguration(begun: State, clientURL: string, s: State)
  {
    begun.generation == s.generation && clientURL == s.cfg.graphURL
  }

  /** A lookup that finishes under another configuration is refused and changes no result. */
  lemma ReconfiguredLookupIsRefused(states: seq<State>, steps: seq<Step>, i: nat, j: nat)
    requires Finishes(states, steps, i, j) && !SameConfiguration(states[i], steps[i].clientURL, states[j])
    ensures ReplyAt(states, steps, j) == Refused(ConfigurationChanged) && ResultsUntouched(states[j], states[j + 1])
  {
    TicketsAreImmutable(states, steps, i, j);
    assert states[j + 1] == Next(states[j], steps[j]);
  }

  /** Last-known-good: a failed fetch is answered with exactly the retained result when that is young
      enough, and refused otherwise. */
  lemma FailedLookupServesTheRetainedResult(states: seq<State>, steps: seq<Step>, i: nat, j: nat)
    requires Finishes(states, steps, i, j) && SameConfiguration(states[i], steps[i].clientURL, states[j])
    requires steps[j].outcome.FetchFailed?
    ensures var s, req := states[j], steps[i].req;
      ReplyAt(states, steps, j) == if RetainedIsYoung(s, req, steps[j].now)
        then Served(s.snapshots[req].releases, s.snapshots[req].generatedAt) else Refused(UpstreamFailed)
    ensures ResultsUntouched(states[j], states[j + 1])
  {
    TicketsAreImmutable(states, steps, i, j);
    assert states[j + 1] == Next(states[j], steps[j]);
  }

  /** A fetch that completed after a newer one was published is answered with the retained result when
      that is young enough, and refused otherwise; it publishes nothing. */
  lemma OvertakenLookupServesTheRetainedResult(states: seq<State>, steps: seq<Step>, i: nat, j: nat)
    requires Finishes(states, steps, i, j) && SameConfiguration(states[i], steps[i].clientURL, states[j])
    requires !steps[j].outcome.FetchFailed? && NewerPublished(states[j], steps[i].req, steps[j].ticket)
    ensures var s, req, reply := states[j], steps[i].req, ReplyAt(states, steps, j);
      if RetainedIsYoung(s, req, steps[j].now)
      then reply == Served(s.snapshots[req].releases, s.snapshots[req].generatedAt)
      else reply == Refused(if req in s.snapshots then SnapshotExpired else NewerResultEvicted)
    ensures ResultsUntouched(states[j], states[j + 1])
  {
    TicketsAreImmutable(states, steps, i, j);
    BoundedMemoryDecidesLikeFullHistory(states, steps, j, steps[j].ticket);
    assert states[j + 1] == Next(states[j], steps[j]);
  }

  /** What a fetch came to: its releases, none when the installed version is unknown. */
  function FetchedList(outcome: Outcome): seq<Release>
    requires !outcome.FetchFailed?
  {
    if outcome.CurrentVersionNotFound? then [] else outcome.releases
  }

  /** Otherwise a fetch that completed is answered with its own result, at this moment, and that
      result is published and retained. */
  lemma CompletedLookupServesItsResult(states: seq<State>, steps: seq<Step>, i: nat, j: nat)
    requires Finishes(states, steps, i, j) && SameConfiguration(states[i], steps[i].clientURL, states[j])
    requires !steps[j].outcome.FetchFailed? && !NewerPublished(states[j], steps[i].req, steps[j].ticket)
    ensures var req, now, list := steps[i].req, steps[j].now, FetchedList(steps[j].outcome);
      && ReplyAt(states, steps, j) == Served(list, now)
      && states[j + 1].published
         == states[j].published + [Publication(req, steps[j].ticket, steps[i].clientURL, list, now)]
      && req in states[j + 1].snapshots && states[j + 1].snapshots[req] == Snapshot(list, now, steps[j].ticket)
      && states[j + 1].cfg == states[j].cfg
  {
    TicketsAreImmutable(states, steps, i, j);
    BoundedMemoryDecidesLikeFullHistory(states, steps, j, steps[j].ticket);
    assert states[j + 1] == Next(states[j], steps[j]);
  }

  /** A served result is never older than the configured age. */
  lemma ServedIsYoung(states: seq<State>, steps: seq<Step>, j: nat)
    requires Run(states, steps) && j < |steps| && steps[j].Finish? && ReplyAt(states, steps, j).Served?
    ensures var maxAge := states[j].cfg.maxSnapshotAge;
      steps[j].now - ReplyAt(states, steps, j).generatedAt <= if maxAge > 0 then maxAge else 24 * 3600 * 1_000_000_000
  {
    ResponsesAreTheLatestPublication(states, steps, j);
  }
}
