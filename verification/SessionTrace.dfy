/** Browser traces of a scrape session, and what makes one safe. The browser is an oracle: every action
    may succeed, report a failure, or raise. */
module SessionTrace {
  import opened Comprehension

  datatype Search = Search(provider: string, pickup: nat, dropoff: nat)

  datatype Vehicle = Vehicle(model: string, group: string, price: Option<real>)

  /** ScrapeResult of a successful recipe run or refine. */
  datatype Scrape = Scrape(vehicles: seq<Vehicle>, hasEmptyPage: bool)

  datatype Outcome = Succeeded(scrape: Scrape) | Reported | Raised

  datatype Event =
    | Opened(ok: bool)                            // BrowserSession.__aenter__
    | Closed                                      // BrowserSession.__aexit__
    | FullRun(search: Search, outcome: Outcome)   // run_recipe: the whole form from the start page
    | Refined(search: Search, outcome: Outcome)   // refine_dates: only the dates, on the current page
    | Extracted(search: Search, done: bool)       // mapping the scrape to a booking result

  predicate Acts(e: Event) {
    e.FullRun? || e.Refined?
  }

  /** The scrapes that leave the page in an unknown state by the scraper's own account: a reported
      failure of either kind, or a refine that raised. */
  predicate Spoils(e: Event) {
    (e.FullRun? && e.outcome.Reported?) || (e.Refined? && !e.outcome.Succeeded?)
  }

  predicate Fails(e: Event) {
    (Acts(e) && !e.outcome.Succeeded?) || (e.Opened? && !e.ok) || (e.Extracted? && !e.done)
  }

  /** Something spoiled the browser session that is currently open. */
  ghost predicate Dirty(trace: seq<Event>) {
    trace != [] &&
    var front, last := trace[..|trace| - 1], trace[|trace| - 1];
    if last.Closed? || (last.Opened? && last.ok) then false else Spoils(last) || Dirty(front)
  }

  /** A browser session is currently open. */
  ghost predicate Open(trace: seq<Event>) {
    trace != [] &&
    var front, last := trace[..|trace| - 1], trace[|trace| - 1];
    if last.Closed? then false else (last.Opened? && last.ok) || Open(front)
  }

  /** A result has been extracted and nothing has failed since. */
  ghost predicate Healthy(trace: seq<Event>) {
    trace != [] &&
    var front, last := trace[..|trace| - 1], trace[|trace| - 1];
    if Fails(last) then false else (last.Extracted? && last.done) || Healthy(front)
  }

  /** What may happen next: no scrape runs on a spoiled session or on none at all; dates are only refined while
      the last thing that happened to a search went well; only a successful scrape is extracted, at once; a
      session is opened when there is none, and closed when it is spoiled. */
  ghost predicate MayFollow(trace: seq<Event>, e: Event) {
    && (Acts(e) ==> Open(trace) && !Dirty(trace))
    && (e.Refined? ==> Healthy(trace))
    && (e.Extracted? ==> trace != [] && Acts(trace[|trace| - 1]) && trace[|trace| - 1].outcome.Succeeded?)
    && (e.Opened? ==> !Open(trace))
    && (e.Closed? ==> Dirty(trace))
  }

  ghost predicate Safe(trace: seq<Event>) {
    forall i :: 0 <= i < |trace| ==> MayFollow(trace[..i], trace[i])
  }

  /** A whole session: safe, but for the closing at its end. */
  ghost predicate Session(trace: seq<Event>) {
    Safe(trace) || (trace != [] && trace[|trace| - 1].Closed? && Safe(trace[..|trace| - 1]))
  }

  lemma SafeSnoc(trace: seq<Event>, e: Event)
    requires Safe(trace) && MayFollow(trace, e)
    ensures Safe(trace + [e])
    ensures Dirty(trace + [e]) == if e.Closed? || (e.Opened? && e.ok) then false else Spoils(e) || Dirty(trace)
    ensures Open(trace + [e]) == if e.Closed? then false else (e.Opened? && e.ok) || Open(trace)
    ensures Healthy(trace + [e]) == if Fails(e) then false else (e.Extracted? && e.done) || Healthy(trace)
  {
    var t := trace + [e];
    assert t[..|t| - 1] == trace && t[|t| - 1] == e;
    forall i | 0 <= i < |t| ensures MayFollow(t[..i], t[i]) {
      if i < |trace| {
        assert t[..i] == trace[..i];
      }
    }
  }

  lemma SessionAt(trace: seq<Event>, i: nat)
    requires Session(trace) && i < |trace| && (i < |trace| - 1 || Acts(trace[i]))
    ensures MayFollow(trace[..i], trace[i])
  {
    if !Safe(trace) {
      assert trace[..|trace| - 1][..i] == trace[..i];
    }
  }

  // ---------------------------------------------------------------- after a failure

  /** Whatever failed, the next scrape is a full run. */
  ghost predicate FullAfterFailure(trace: seq<Event>) {
    forall i, j :: 0 <= i < j < |trace| && Fails(trace[i]) && NextScrape(trace, i, j) ==> trace[j].FullRun?
  }

  /** The first scrape after position i is at position j. */
  ghost predicate NextScrape(trace: seq<Event>, i: nat, j: nat)
    requires j < |trace|
  {
    Acts(trace[j]) && forall k :: i < k < j ==> !Acts(trace[k])
  }

  lemma FullRunAfterFailure(trace: seq<Event>)
    requires Session(trace)
    ensures FullAfterFailure(trace)
  {
    forall i, j | 0 <= i < j < |trace| && Fails(trace[i]) && Acts(trace[j]) &&
      (forall k :: i < k < j ==> !Acts(trace[k]))
      ensures trace[j].FullRun?
    {
      SessionAt(trace, j);
      forall k | i < k < j ensures !trace[k].Extracted? {
        SessionAt(trace, k);
        assert trace[..k][k - 1] == trace[k - 1];
      }
      NotHealthyAfter(trace[..j], i);
    }
  }

  lemma {:induction false} NotHealthyAfter(trace: seq<Event>, i: nat)
    requires i < |trace| && Fails(trace[i])
    requires forall k :: i < k < |trace| ==> !trace[k].Extracted?
    ensures !Healthy(trace)
  {
    if i < |trace| - 1 {
      NotHealthyAfter(trace[..|trace| - 1], i);
    }
  }

  /** After a failure the scraper notices, the session is replaced before the next scrape. */
  lemma FreshAfterSpoil(trace: seq<Event>, i: nat, j: nat)
    requires Session(trace) && i < j < |trace| && Spoils(trace[i]) && Acts(trace[j])
    ensures exists k :: i < k < j && trace[k].Opened? && trace[k].ok
  {
    SessionAt(trace, j);
    var k := Reopened(trace[..j], i);
  }

  lemma {:induction false} Reopened(trace: seq<Event>, i: nat) returns (k: nat)
    requires i < |trace| && Spoils(trace[i]) && Open(trace) && !Dirty(trace)
    ensures i < k < |trace| && trace[k].Opened? && trace[k].ok
  {
    var front, last := trace[..|trace| - 1], trace[|trace| - 1];
    if last.Opened? && last.ok {
      k := |trace| - 1;
    } else {
      assert Open(front) && !Dirty(front);
      k := Reopened(front, i);
    }
  }

  /** Every failed scrape, including a recipe run that raised instead of reporting, is followed by a fresh
      session before the next scrape. */
  ghost predicate Replaced(trace: seq<Event>) {
    forall i, j :: 0 <= i < j < |trace| && Acts(trace[i]) && !trace[i].outcome.Succeeded? && Acts(trace[j]) ==>
      exists k :: i < k < j && trace[k].Opened? && trace[k].ok
  }

  predicate RaisedRun(e: Event) {
    e.FullRun? && e.outcome.Raised?
  }

  /** The next event after a raised recipe run, if the session goes on, is another scrape: the session still
      counts as open and clean. */
  lemma RaiseIsReused(trace: seq<Event>, i: nat, j: nat)
    requires Session(trace) && i < j < |trace| && RaisedRun(trace[i]) && Acts(trace[j])
    ensures Acts(trace[i + 1])
  {
    SessionAt(trace, i);
    if i + 1 < j {
      SessionAt(trace, i + 1);
      var before := trace[..i + 1];
      assert before[..|before| - 1] == trace[..i] && before[|before| - 1] == trace[i];
    }
  }

  /** In a session every failed scrape is followed by a fresh browser session exactly when no recipe run that
      raised is followed by another scrape: a raise is not recorded as dirty. */
  lemma ReplacedIff(trace: seq<Event>)
    requires Session(trace)
    ensures Replaced(trace) <==> forall i, j :: 0 <= i < j < |trace| && RaisedRun(trace[i]) ==> !Acts(trace[j])
  {
    if Replaced(trace) {
      forall i, j | 0 <= i < j < |trace| && RaisedRun(trace[i]) ensures !Acts(trace[j]) {
        if Acts(trace[j]) {
          RaiseIsReused(trace, i, j);
        }
      }
    } else {
      var i, j :| 0 <= i < j < |trace| && Acts(trace[i]) && !trace[i].outcome.Succeeded? && Acts(trace[j])
        && !(exists k :: i < k < j && trace[k].Opened? && trace[k].ok);
      if Spoils(trace[i]) {
        FreshAfterSpoil(trace, i, j);
      }
      assert RaisedRun(trace[i]);
    }
  }
}
