/** The two cooperating state machines of a scrape session: RecipeScraper, which owns the browser
    session and its dirty flag, and the scrape_session loop above it, which decides between a full
    submit and a refine. */
module ScrapeSession {
  import opened Comprehension
  import opened SessionTrace

  datatype Car = Car(model: string, group: string, total: real, dailyPrice: real)

  datatype BookingResult = BookingResult(provider: string, cars: seq<Car>, errors: seq<string>, confirmedEmpty: bool)

  datatype Request = Request(search: Search, fallbacks: seq<Search>)

  /** What the scraper needs to know of a recipe: whether its refine strategy is other than "none". */
  datatype LoadedRecipe = LoadedRecipe(canRefine: bool)

  function RentalDays(s: Search): int {
    s.dropoff - s.pickup
  }

  function CarOf(s: Search): Vehicle -> Option<Car> {
    (v: Vehicle) =>
      if v.price == None then None
      else Some(Car(v.model, v.group, v.price.value,
                    v.price.value / (if RentalDays(s) > 1 then RentalDays(s) else 1) as real))
  }

  /** The booking result of a successful scrape. */
  function Mapped(s: Search, scrape: Scrape): BookingResult {
    BookingResult(s.provider, Gather(scrape.vehicles, CarOf(s)), [], scrape.hasEmptyPage)
  }

  function Failed(req: Request): BookingResult {
    BookingResult(req.search.provider, [], ["All attempts failed"], false)
  }

  /** The car a priced vehicle is sold as: the daily price times the rental days, at least one, is the total. */
  predicate SoldAs(v: Vehicle, c: Car, s: Search) {
    && c.model == v.model && c.group == v.group && v.price == Some(c.total)
    && c.dailyPrice * (if s.dropoff - s.pickup >= 1 then s.dropoff - s.pickup else 1) as real == c.total
  }

  /** at lists the positions of the priced vehicles, in order, and cars what they are sold as. */
  ghost predicate PricedAt(at: seq<nat>, vehicles: seq<Vehicle>, cars: seq<Car>, s: Search) {
    && |at| == |cars|
    && (forall k :: 0 <= k < |at| ==> at[k] < |vehicles| && SoldAs(vehicles[at[k]], cars[k], s))
    && (forall j, k :: 0 <= j < k < |at| ==> at[j] < at[k])
    && forall i :: 0 <= i < |vehicles| && vehicles[i].price.Some? ==> i in at
  }

  /** The result says of the scrape what a booking result should: one car per priced vehicle, no error, and
      confirmed empty exactly when the page said so. */
  ghost predicate Reports(r: BookingResult, s: Search, scrape: Scrape) {
    && r.provider == s.provider && r.errors == [] && (r.confirmedEmpty <==> scrape.hasEmptyPage)
    && exists at :: PricedAt(at, scrape.vehicles, r.cars, s)
  }

  lemma DailyTimesDays(total: real, days: real)
    requires days > 0.0
    ensures total / days * days == total
  {
  }

  lemma SoldIsCar(s: Search, v: Vehicle)
    requires v.price.Some?
    ensures CarOf(s)(v).Some? && SoldAs(v, CarOf(s)(v).value, s)
  {
    var days := if RentalDays(s) > 1 then RentalDays(s) else 1;
    DailyTimesDays(v.price.value, days as real);
  }

  lemma {:induction false} CarsArePriced(s: Search, vehicles: seq<Vehicle>) returns (at: seq<nat>)
    ensures PricedAt(at, vehicles, Gather(vehicles, CarOf(s)), s)
  {
    at := [];
    if vehicles != [] {
      var n := |vehicles| - 1;
      var front := CarsArePriced(s, vehicles[..n]);
      GatherSnoc(vehicles, n, CarOf(s));
      assert vehicles[..n + 1] == vehicles;
      at := front;
      if vehicles[n].price.Some? {
        SoldIsCar(s, vehicles[n]);
        at := front + [n];
      }
      forall i | 0 <= i < |vehicles| && vehicles[i].price.Some? ensures i in at {
        if i < n {
          assert vehicles[..n][i] == vehicles[i];
          assert i in front;
        }
      }
    }
  }

  lemma MappedReports(s: Search, scrape: Scrape)
    ensures Reports(Mapped(s, scrape), s, scrape)
  {
    var at := CarsArePriced(s, scrape.vehicles);
  }

  /** The events end with a successful scrape and its extraction. */
  ghost predicate EndsWith(how: seq<Event>, s: Search, scrape: Scrape) {
    && |how| >= 2 && how[|how| - 1] == Extracted(s, true)
    && Acts(how[|how| - 2]) && how[|how| - 2].search == s && how[|how| - 2].outcome == Succeeded(scrape)
  }

  /** The events end with a successful scrape of the search, extracted right after it into the result. */
  ghost predicate Scraped(how: seq<Event>, s: Search, r: BookingResult) {
    exists scrape :: EndsWith(how, s, scrape) && Reports(r, s, scrape)
  }

  /** One pass through the try block: which search, by a full submit or by refining, the result if there was no
      exception, and what happened in the browser meanwhile. */
  datatype Try = Try(search: Search, full: bool, result: Option<BookingResult>, events: seq<Event>)

  /** A full submit never refines, a result is this search's own, and a failure is never made up: something
      failed last, or nothing could be started. */
  ghost predicate Real(t: Try) {
    && (t.full ==> forall e :: e in t.events ==> !e.Refined?)
    && match t.result
       case Some(r) => Scraped(t.events, t.search, r)
       case None => t.events == [] || Fails(t.events[|t.events| - 1])
  }

  ghost predicate AllReal(tries: seq<Try>) {
    forall i :: 0 <= i < |tries| ==> Real(tries[i])
  }

  /** What a request goes through as long as nothing succeeds: the primary search, the fallbacks in order,
      and the primary search once more. */
  function Agenda(req: Request): seq<Search> {
    [req.search] + req.fallbacks + [req.search]
  }

  /** The primary search comes first and last, the fallbacks between, in their order. */
  lemma AgendaMeaning(req: Request, i: nat)
    requires i < |Agenda(req)|
    ensures |Agenda(req)| == |req.fallbacks| + 2
    ensures Agenda(req)[i] == if 0 < i <= |req.fallbacks| then req.fallbacks[i - 1] else req.search
  {
  }

  /** The first n searches of the agenda, tried in order, all failed. */
  ghost predicate AllFailed(tries: seq<Try>, req: Request, n: nat) {
    |tries| == n <= |Agenda(req)| && forall i :: 0 <= i < n ==>
      tries[i].search == Agenda(req)[i] && tries[i].result == None
  }

  /** How a request is served: the result of the first success of the agenda, or the all-attempts-failed error
      after the whole agenda failed. */
  ghost predicate Served(tries: seq<Try>, req: Request, r: BookingResult) {
    || (r == Failed(req) && AllFailed(tries, req, |Agenda(req)|))
    || (tries != [] && |tries| <= |Agenda(req)| && AllFailed(tries[..|tries| - 1], req, |tries| - 1)
        && var last := tries[|tries| - 1]; last.search == Agenda(req)[|tries| - 1] && last.result == Some(r))
  }

  /** An attempt starts from the whole form exactly when it is the session's first or the one before it
      failed. */
  ghost predicate Chained(tries: seq<Try>) {
    forall i :: 0 <= i < |tries| ==> tries[i].full == NextIsFull(tries[..i])
  }

  /** After a failed attempt the browser is never refined, whatever the failure was. */
  ghost predicate FullAfterFailedTry(tries: seq<Try>) {
    forall i, e :: 0 < i < |tries| && tries[i - 1].result == None && e in tries[i].events ==> !e.Refined?
  }

  predicate NextIsFull(tries: seq<Try>) {
    tries == [] || tries[|tries| - 1].result == None
  }

  ghost function EventsOf(tries: seq<Try>): seq<Event> {
    if tries == [] then [] else EventsOf(tries[..|tries| - 1]) + tries[|tries| - 1].events
  }

  lemma TriesSnoc(tries: seq<Try>, t: Try)
    requires Chained(tries) && AllReal(tries) && t.full == NextIsFull(tries) && Real(t)
    ensures Chained(tries + [t]) && AllReal(tries + [t]) && EventsOf(tries + [t]) == EventsOf(tries) + t.events
  {
    var all := tries + [t];
    assert all[..|tries|] == tries;
    forall i | 0 <= i < |all| ensures all[i].full == NextIsFull(all[..i]) {
      if i < |tries| {
        assert all[..i] == tries[..i];
      }
    }
  }

  lemma FailedSnoc(tries: seq<Try>, req: Request, t: Try)
    requires AllFailed(tries, req, |tries|) && |tries| < |Agenda(req)|
    requires t.search == Agenda(req)[|tries|] && t.result == None
    ensures AllFailed(tries + [t], req, |tries| + 1)
  {
  }

  lemma ServedOk(tries: seq<Try>, req: Request, t: Try)
    requires AllFailed(tries, req, |tries|) && |tries| < |Agenda(req)|
    requires t.search == Agenda(req)[|tries|] && t.result.Some?
    ensures Served(tries + [t], req, t.result.value)
  {
    var all := tries + [t];
    assert all[..|all| - 1] == tries && all[|all| - 1] == t;
    assert AllFailed(all[..|all| - 1], req, |all| - 1);
  }

  /** The next attempt of a request serves it, or is one more failure. */
  lemma TriedNext(start: seq<Try>, before: seq<Try>, req: Request, t: Try)
    requires AllFailed(before, req, |before|) && |before| < |Agenda(req)| && t.search == Agenda(req)[|before|]
    ensures var mine := before + [t];
      && start + before + [t] == start + mine && NextIsFull(start + mine) == t.result.None?
      && if t.result.Some? then Served(mine, req, t.result.value) else AllFailed(mine, req, |mine|)
  {
    if t.result.Some? {
      ServedOk(before, req, t);
    } else {
      FailedSnoc(before, req, t);
    }
  }

  lemma ExtractionIsReal(how: seq<Event>, s: Search, last: Option<Scrape>, full: bool, r: Option<BookingResult>)
    requires Yields(how, s, last) && (full ==> forall e :: e in how ==> !e.Refined?)
    requires r.Some? ==> Reports(r.value, s, last.value)
    ensures Real(Try(s, full, r, how + [Extracted(s, r.Some?)]))
  {
    var all := how + [Extracted(s, r.Some?)];
    assert all[|how| - 1] == how[|how| - 1] && all[|how|] == Extracted(s, r.Some?);
    if r.Some? {
      assert EndsWith(all, s, last.value);
    }
  }

  lemma Appended(before: seq<Event>, how: seq<Event>, e: Event)
    ensures before + how + [e] == before + (how + [e]) && (how + [e])[|how + [e]| - 1] == e
  {
  }

  lemma LastOf(before: seq<Event>, how: seq<Event>)
    requires how != []
    ensures (before + how)[|before + how| - 1] == how[|how| - 1]
  {
  }

  class RecipeScraper {
    var recipe: Option<LoadedRecipe>
    var session: bool
    var sessionDirty: bool
    var lastResult: Option<Scrape>
    ghost var trace: seq<Event>
    ghost var tries: seq<Try>

    ghost predicate Valid()
      reads this
    {
      && Safe(trace)
      && session == Open(trace)
      && sessionDirty == Dirty(trace)
      && (sessionDirty ==> session)
    }

    constructor ()
      ensures Settled() && trace == [] && tries == [] && recipe == None && !session && !sessionDirty
      ensures lastResult == None
    {
      recipe, session, sessionDirty, lastResult, trace, tries := None, false, false, None, [], [];
    }

    /** Append an event to the trace, when its preconditions for safety hold. */
    ghost method Log(e: Event)
      requires Safe(trace) && MayFollow(trace, e)
      modifies this`trace
      ensures trace == old(trace) + [e] && Safe(trace)
      ensures Dirty(trace) == if e.Closed? || (e.Opened? && e.ok) then false else Spoils(e) || Dirty(old(trace))
      ensures Open(trace) == if e.Closed? then false else (e.Opened? && e.ok) || Open(old(trace))
      ensures Healthy(trace) == if Fails(e) then false else (e.Extracted? && e.done) || Healthy(old(trace))
    {
      SafeSnoc(trace, e);
      trace := trace + [e];
    }

    /** _open_session: may raise. */
    method OpenSession() returns (ok: bool)
      requires Valid() && !session
      modifies this`session, this`trace
      ensures Valid() && session == ok && trace == old(trace) + [Opened(ok)]
    {
      ok := *;
      Log(Opened(ok));
      if ok {
        session := true;
      }
    }

    /** _close_session on a spoiled session: errors while closing are swallowed. The dirty flag is the caller's
        business. */
    method CloseSession()
      requires Valid() && sessionDirty
      modifies this`session, this`trace
      ensures Safe(trace) && !session && !Open(trace) && !Dirty(trace) && trace == old(trace) + [Closed]
    {
      Log(Closed);
      session := false;
    }

    /** _load_recipe: the row may be missing and the database may fail. */
    method LoadRecipe() returns (loaded: Option<LoadedRecipe>)
    {
      loaded := *;
    }

    /** A usable browser session: none is reused when the last one was spoiled. */
    method PrepareSession() returns (ready: bool)
      requires Valid()
      modifies this`session, this`sessionDirty, this`trace
      ensures Valid() && ready == session && !sessionDirty && (old(session) && !old(sessionDirty) ==> ready)
      ensures trace == old(trace) + Preparation(old(session), old(sessionDirty), ready)
    {
      if session && sessionDirty {
        CloseSession();
        sessionDirty := false;
      }
      ready := session;
      if !session {
        ready := OpenSession();
      }
    }

    /** run_recipe on the open session. */
    method RunRecipe(s: Search) returns (outcome: Outcome)
      requires Valid() && session && !sessionDirty
      modifies this`sessionDirty, this`lastResult, this`trace
      ensures Valid() && session && trace == old(trace) + [FullRun(s, outcome)]
      ensures outcome.Succeeded? ==> !sessionDirty && lastResult == Some(outcome.scrape)
    {
      outcome := *;
      Log(FullRun(s, outcome));
      match outcome {
        case Raised =>
        case Reported =>
          sessionDirty := true;
        case Succeeded(scrape) =>
          lastResult := Some(scrape);
      }
    }

    /** _submit_form, once there is a recipe. how is what it added to the trace. */
    method FillForm(s: Search) returns (ok: bool, ghost how: seq<Event>)
      requires Valid()
      modifies this`session, this`sessionDirty, this`lastResult, this`trace
      ensures Valid() && trace == old(trace) + how
      ensures Submits(how, ok, true, old(session), old(sessionDirty), s, lastResult)
      ensures ok ==> session && !sessionDirty
    {
      ghost var open, dirty := session, sessionDirty;
      var ready := PrepareSession();
      how := Preparation(open, dirty, ready);
      if !ready {
        return false, how;
      }
      var outcome := RunRecipe(s);
      SubmitsRun(outcome, open, dirty, s, lastResult);
      Appended(old(trace), how, FullRun(s, outcome));
      how := how + [FullRun(s, outcome)];
      ok := outcome.Succeeded?;
    }

    /** _submit_form. A failure is a raised exception; ok says there was none. */
    method SubmitForm(s: Search) returns (ok: bool, ghost how: seq<Event>)
      requires Valid()
      modifies this`recipe, this`session, this`sessionDirty, this`lastResult, this`trace
      ensures Valid() && trace == old(trace) + how && (recipe == old(recipe) || old(recipe) == None)
      ensures Submits(how, ok, recipe.Some?, old(session), old(sessionDirty), s, lastResult)
      ensures ok ==> session && !sessionDirty
    {
      if recipe == None {
        recipe := LoadRecipe();
      }
      if recipe == None {
        return false, [];
      }
      ok, how := FillForm(s);
    }

    /** _refine_form, with its fallbacks to a full submit. */
    method RefineForm(s: Search) returns (ok: bool, ghost how: seq<Event>)
      requires Valid() && Healthy(trace) && !sessionDirty
      modifies this`recipe, this`session, this`sessionDirty, this`lastResult, this`trace
      ensures Valid() && trace == old(trace) + how && (recipe == old(recipe) || old(recipe) == None)
      ensures if old(session) && old(recipe).Some? && old(recipe).value.canRefine then Refines(how, ok, s, lastResult)
        else Submits(how, ok, recipe.Some?, old(session), false, s, lastResult)
      ensures ok ==> session && !sessionDirty
    {
      if !session || recipe == None {
        ok, how := SubmitForm(s);
        return;
      }
      if !recipe.value.canRefine {
        ok, how := SubmitForm(s);
        return;
      }
      var outcome: Outcome := *;
      Log(Refined(s, outcome));
      how := [Refined(s, outcome)];
      if !outcome.Succeeded? {
        sessionDirty := true;
        return false, how;
      }
      lastResult := Some(outcome.scrape);
      ok := true;
    }

    /** _extract_results: pure mapping, but conversions may raise. */
    method ExtractResults(s: Search) returns (r: Option<BookingResult>)
      requires Valid() && lastResult.Some? && trace != []
      requires Acts(trace[|trace| - 1]) && trace[|trace| - 1].outcome.Succeeded?
      modifies this`trace
      ensures Valid() && trace == old(trace) + [Extracted(s, r.Some?)]
      ensures r.Some? ==> Reports(r.value, s, lastResult.value) && Healthy(trace)
    {
      var done: bool := *;
      Log(Extracted(s, done));
      MappedReports(s, lastResult.value);
      r := if done then Some(Mapped(s, lastResult.value)) else None;
    }

    /** The first half of an attempt: get a scrape of the search, by the whole form or by its dates. */
    method Obtain(s: Search, fullSubmit: bool) returns (ok: bool, ghost how: seq<Event>)
      requires Valid() && (!fullSubmit ==> Healthy(trace) && !sessionDirty)
      modifies this`recipe, this`session, this`sessionDirty, this`lastResult, this`trace
      ensures Valid() && trace == old(trace) + how
      ensures if ok then !sessionDirty && Yields(how, s, lastResult) else Failure(how, recipe.Some?)
      ensures fullSubmit ==> forall e :: e in how ==> !e.Refined?
    {
      ghost var open, dirty := session, sessionDirty;
      if fullSubmit {
        ok, how := SubmitForm(s);
        SubmitMeaning(how, ok, recipe.Some?, open, dirty, s, lastResult);
      } else {
        ghost var canRefine := session && recipe.Some? && recipe.value.canRefine;
        ok, how := RefineForm(s);
        if !canRefine {
          SubmitMeaning(how, ok, recipe.Some?, open, false, s, lastResult);
        }
      }
    }

    /** The second half of an attempt: map the scrape that was just obtained. */
    method Finish(s: Search, ghost full: bool, ghost obtained: seq<Event>)
      returns (r: Option<BookingResult>, ghost how: seq<Event>)
      requires Valid() && Yields(obtained, s, lastResult) && (full ==> forall e :: e in obtained ==> !e.Refined?)
      requires trace != [] && trace[|trace| - 1] == obtained[|obtained| - 1]
      modifies this`trace
      ensures Valid() && (r.Some? ==> Healthy(trace)) && Real(Try(s, full, r, how))
      ensures trace == old(trace) + [Extracted(s, r.Some?)] && how == obtained + [Extracted(s, r.Some?)]
    {
      r := ExtractResults(s);
      ExtractionIsReal(obtained, s, lastResult, full, r);
      how := obtained + [Extracted(s, r.Some?)];
    }

    /** What an attempt makes of its first half. */
    method Conclude(s: Search, ghost full: bool, ok: bool, ghost before: seq<Event>, ghost obtained: seq<Event>)
      returns (r: Option<BookingResult>, ghost how: seq<Event>)
      requires Valid() && trace == before + obtained && (full ==> forall e :: e in obtained ==> !e.Refined?)
      requires if ok then Yields(obtained, s, lastResult) else Failure(obtained, recipe.Some?)
      modifies this`trace
      ensures Valid() && trace == before + how && (r.Some? ==> ok && Healthy(trace))
      ensures Real(Try(s, full, r, how)) && (r == None ==> Failure(how, recipe.Some?))
    {
      if ok {
        LastOf(before, obtained);
        r, how := Finish(s, full, obtained);
        Appended(before, obtained, Extracted(s, r.Some?));
      } else {
        r, how := None, obtained;
      }
    }

    /** One attempt of the loop: scrape and extract, None for an exception. */
    method Attempt(s: Search, fullSubmit: bool) returns (r: Option<BookingResult>, ghost how: seq<Event>)
      requires Valid() && (!fullSubmit ==> Healthy(trace) && !sessionDirty)
      modifies this`recipe, this`session, this`sessionDirty, this`lastResult, this`trace
      ensures Valid() && trace == old(trace) + how
      ensures r.Some? ==> Healthy(trace) && !sessionDirty
      ensures r == None ==> Failure(how, recipe.Some?)
      ensures Real(Try(s, fullSubmit, r, how))
    {
      ghost var obtained;
      var ok;
      ok, obtained := Obtain(s, fullSubmit);
      r, how := Conclude(s, fullSubmit, ok, old(trace), obtained);
    }

    /** Between attempts: the trace is what the attempts did, each of them real, chained by their failures; and
        unless the next one is full, the session is fit for refining. */
    ghost predicate Settled()
      reads this
    {
      && Valid() && Chained(tries) && AllReal(tries) && trace == EventsOf(tries)
      && (!NextIsFull(tries) ==> Healthy(trace) && !sessionDirty)
    }

    /** Attempt inside a chain of attempts. */
    method NextAttempt(s: Search, full: bool) returns (r: Option<BookingResult>, ghost t: Try)
      requires Settled() && full == NextIsFull(tries)
      modifies this
      ensures Settled() && tries == old(tries) + [t] && t.search == s && t.full == full && t.result == r
    {
      ghost var how;
      r, how := Attempt(s, full);
      t := Try(s, full, r, how);
      TriesSnoc(tries, t);
      tries := tries + [t];
    }

    /** The next search of a request's agenda, after all before it failed. */
    method TryNext(req: Request, s: Search, full: bool, ghost start: seq<Try>, ghost before: seq<Try>)
      returns (r: Option<BookingResult>, ghost mine: seq<Try>)
      requires Settled() && full == NextIsFull(tries) && tries == start + before
      requires AllFailed(before, req, |before|) && |before| < |Agenda(req)| && s == Agenda(req)[|before|]
      modifies this
      ensures Settled() && NextIsFull(tries) == r.None?
      ensures |mine| == |before| + 1 && tries == start + mine
      ensures if r.Some? then Served(mine, req, r.value) else AllFailed(mine, req, |mine|)
    {
      ghost var t;
      r, t := NextAttempt(s, full);
      mine := before + [t];
      TriedNext(start, before, req, t);
    }

    /** The attempts loop: primary search, then the fallbacks in order. */
    method TryAll(req: Request, full: bool) returns (r: Option<BookingResult>, ghost mine: seq<Try>)
      requires Settled() && full == NextIsFull(tries)
      modifies this
      ensures Settled() && tries == old(tries) + mine && NextIsFull(tries) == r.None?
      ensures if r.Some? then Served(mine, req, r.value) else AllFailed(mine, req, |Agenda(req)| - 1)
    {
      var attempts := [req.search] + req.fallbacks;
      var needsFullSubmit := full;
      r, mine := None, [];
      var i := 0;
      while i < |attempts|
        invariant 0 <= i <= |attempts| && Settled() && tries == old(tries) + mine
        invariant needsFullSubmit == NextIsFull(tries) && (i > 0 ==> needsFullSubmit)
        invariant r == None && AllFailed(mine, req, i)
      {
        r, mine := TryNext(req, attempts[i], needsFullSubmit, old(tries), mine);
        needsFullSubmit := r.None?;
        if r.Some? {
          break;
        }
        i := i + 1;
      }
    }

    /** One request: the attempts, then one more full submit of the primary search, then the error. */
    method RunRequest(req: Request, full: bool)
      returns (result: BookingResult, needsFullSubmit: bool, ghost mine: seq<Try>)
      requires Settled() && full == NextIsFull(tries)
      modifies this
      ensures Settled() && tries == old(tries) + mine && needsFullSubmit == NextIsFull(tries)
      ensures Served(mine, req, result)
    {
      var r;
      r, mine := TryAll(req, full);
      needsFullSubmit := r.None?;
      if r == None {
        r, mine := TryNext(req, req.search, true, old(tries), mine);
        needsFullSubmit := r.None?;
        if r == None {
          r := Some(Failed(req));
        }
      }
      result := r.value;
    }

    /** close, from the finally clause; it leaves the dirty flag as it is. */
    method Close()
      requires Valid()
      modifies this`session, this`trace
      ensures Session(trace) && !session
      ensures trace == if old(session) then old(trace) + [Closed] else old(trace)
    {
      if session {
        ghost var before := trace;
        trace := trace + [Closed];
        assert trace[..|trace| - 1] == before;
        session := false;
      }
    }

    /** The body of the request loop: run the request, consult the stopper. */
    method Step(req: Request, full: bool, stopper: ProbeStopper?)
      returns (result: BookingResult, needsFullSubmit: bool, stop: bool, ghost mine: seq<Try>)
      requires Settled() && full == NextIsFull(tries)
      modifies this, stopper
      ensures Settled() && tries == old(tries) + mine && needsFullSubmit == NextIsFull(tries)
      ensures Served(mine, req, result)
      ensures stopper == null ==> !stop
      ensures stopper != null ==>
        && stopper.streak == (if result.confirmedEmpty then old(stopper.streak) + 1 else 0)
        && (stop <==> stopper.streak >= stopper.threshold)
    {
      result, needsFullSubmit, mine := RunRequest(req, full);
      stop := false;
      if stopper != null {
        stop := stopper.ShouldStop(result);
      }
    }

    /** The request loop of scrape_session. */
    method RunAll(requests: seq<Request>, stopper: ProbeStopper?)
      returns (results: seq<BookingResult>, ghost served: seq<seq<Try>>, stop: bool)
      requires Settled() && tries == []
      modifies this, stopper
      ensures Settled() && tries == AllTries(served)
      ensures OwnResults(served, requests, results) && (|results| < |requests| ==> stop)
      ensures stopper == null ==> !stop
      ensures stopper != null && old(stopper.streak) == 0 ==>
        StopperTracks(results, stopper.streak, stop, stopper.threshold)
    {
      results, served, stop := [], [], false;
      var needsFullSubmit := true;
      while |results| < |requests| && !stop
        invariant |results| <= |requests| && Settled() && needsFullSubmit == NextIsFull(tries)
        invariant OwnResults(served, requests, results) && tries == AllTries(served)
        invariant stopper == null ==> !stop
        invariant stopper != null && old(stopper.streak) == 0 ==>
          StopperTracks(results, stopper.streak, stop, stopper.threshold)
        decreases |requests| - |results|
      {
        ghost var executed := results;
        var result;
        ghost var mine;
        result, needsFullSubmit, stop, mine := Step(requests[|results|], needsFullSubmit, stopper);
        RealTail(AllTries(served), mine);
        ServedSnoc(served, requests, results, mine, result);
        served := served + [mine];
        results := results + [result];
        if stopper != null && old(stopper.streak) == 0 {
          StreakSnoc(executed, result, stopper.threshold);
        }
      }
    }

    /** scrape_session on a fresh scraper: what its attempts did, in order, and a closing at the end. */
    method ScrapeSession(requests: seq<Request>, stopper: ProbeStopper?)
      returns (results: seq<BookingResult>, ghost served: seq<seq<Try>>)
      requires Settled() && tries == []
      modifies this, stopper
      ensures !session && Session(trace) && FullAfterFailure(trace)
      ensures trace == EventsOf(tries) || trace == EventsOf(tries) + [Closed]
      ensures tries == AllTries(served) && AllReal(tries) && Chained(tries) && FullAfterFailedTry(tries)
      ensures OwnResults(served, requests, results)
      ensures Replaced(trace) <==> forall i, j :: 0 <= i < j < |trace| && RaisedRun(trace[i]) ==> !Acts(trace[j])
      ensures forall k :: 0 <= k < |results| ==> (results[k].confirmedEmpty <==> ShowedEmptyPage(served[k]))
      ensures stopper == null ==> |results| == |requests|
      ensures stopper != null && old(stopper.streak) == 0 ==> StopsAt(results, |requests|, stopper.threshold)
    {
      var stop;
      results, served, stop := RunAll(requests, stopper);
      if stopper != null && old(stopper.streak) == 0 {
        TrackedStops(results, stopper.streak, stop, |requests|, stopper.threshold);
      }
      AllConfirmed(served, requests, results);
      Close();
      FullRunAfterFailure(trace);
      ReplacedIff(trace);
      ChainNeverRefines(tries);
    }
  }

  lemma ChainNeverRefines(tries: seq<Try>)
    requires Chained(tries) && AllReal(tries)
    ensures FullAfterFailedTry(tries)
  {
    forall i, e | 0 < i < |tries| && tries[i - 1].result == None && e in tries[i].events ensures !e.Refined? {
      assert Real(tries[i]) && tries[i].full == NextIsFull(tries[..i]);
    }
  }

  lemma RaiseTrace(s: Search)
    ensures var t := [Opened(true), FullRun(s, Raised), FullRun(s, Reported)];
      Safe(t) && !Replaced(t) && Open(t[..2]) && !Dirty(t[..2])
  {
    var a, b, c := Opened(true), FullRun(s, Raised), FullRun(s, Reported);
    SafeSnoc([], a);
    SafeSnoc([a], b);
    SafeSnoc([a, b], c);
    assert [] + [a] == [a] && [a] + [b] == [a, b] && [a, b] + [c] == [a, b, c];
    assert [a, b, c][..2] == [a, b];
    assert RaisedRun([a, b, c][1]) && Acts([a, b, c][2]);
    ReplacedIff([a, b, c]);
  }

  lemma EventsOfTwo(t: Try, u: Try)
    ensures EventsOf([t, u]) == t.events + u.events
  {
    assert [t, u][..1] == [t] && [t][..0] == [];
    assert EventsOf([t]) == [] + t.events;
  }

  /** A session the scraper can produce in which a raised run goes unnoticed: one request, whose first submit
      raises and whose retry reports a failure on the same browser session. */
  lemma RaiseIsUnnoticed(s: Search) returns (tries: seq<Try>)
    ensures Chained(tries) && AllReal(tries) && Served(tries, Request(s, []), Failed(Request(s, []))) && |tries| == 2
    ensures Submits(tries[0].events, false, true, false, false, s, None)
    ensures Submits(tries[1].events, false, true, Open(tries[0].events), Dirty(tries[0].events), s, None)
    ensures Safe(EventsOf(tries)) && !Replaced(EventsOf(tries))
  {
    var first, second := Try(s, true, None, [Opened(true), FullRun(s, Raised)]),
      Try(s, true, None, [FullRun(s, Reported)]);
    tries := [first, second];
    TwoFailures(Request(s, []), first, second);
    TwoSubmits(s);
    RaiseTrace(s);
    EventsOfTwo(first, second);
    var t := [Opened(true), FullRun(s, Raised), FullRun(s, Reported)];
    assert first.events + second.events == t && t[..2] == first.events;
  }

  lemma TwoFailures(req: Request, first: Try, second: Try)
    requires req.fallbacks == [] && first.search == second.search == req.search
    requires first.full && second.full && first.result == None && second.result == None && Real(first) && Real(second)
    ensures Chained([first, second]) && AllReal([first, second]) && Served([first, second], req, Failed(req))
  {
    TwoChained(first, second);
    assert Agenda(req) == [req.search, req.search];
    assert AllFailed([first, second], req, 2);
  }

  lemma TwoChained(first: Try, second: Try)
    requires first.full && second.full && first.result == None && Real(first) && Real(second)
    ensures Chained([first, second]) && AllReal([first, second])
  {
    var tries := [first, second];
    forall i | 0 <= i < |tries| ensures tries[i].full == NextIsFull(tries[..i]) {
      if i == 1 {
        assert tries[..i] == [first];
      }
    }
  }

  lemma TwoSubmits(s: Search)
    ensures Submits([Opened(true), FullRun(s, Raised)], false, true, false, false, s, None)
    ensures Submits([FullRun(s, Reported)], false, true, true, false, s, None)
  {
    assert Preparation(false, false, true) + [FullRun(s, Raised)] == [Opened(true), FullRun(s, Raised)];
    assert Preparation(true, false, true) + [FullRun(s, Reported)] == [FullRun(s, Reported)];
  }

  /** What has to happen before the form is filled: a spoiled session is closed, and one is opened where
      none is left. */
  function Preparation(session: bool, dirty: bool, started: bool): seq<Event> {
    if session && !dirty then [] else (if session then [Closed] else []) + [Opened(started)]
  }

  /** The events of a submit: nothing without a recipe; otherwise the preparation and, if the browser is
      there, one full run, which succeeds exactly when the submit does. */
  ghost predicate Submits(how: seq<Event>, ok: bool, hasRecipe: bool, session: bool, dirty: bool, s: Search,
                          last: Option<Scrape>)
  {
    if ok then hasRecipe && last.Some? && how == Preparation(session, dirty, true) + [FullRun(s, Succeeded(last.value))]
    else if !hasRecipe then how == []
    else
      || how == Preparation(session, dirty, true) + [FullRun(s, Reported)]
      || how == Preparation(session, dirty, true) + [FullRun(s, Raised)]
      || ((!session || dirty) && how == Preparation(session, dirty, false))
  }

  ghost predicate Refines(how: seq<Event>, ok: bool, s: Search, last: Option<Scrape>) {
    if ok then last.Some? && how == [Refined(s, Succeeded(last.value))]
    else how == [Refined(s, Reported)] || how == [Refined(s, Raised)]
  }

  /** The events end with a successful scrape of the search. */
  ghost predicate Yields(how: seq<Event>, s: Search, last: Option<Scrape>) {
    && last.Some? && how != []
    && Acts(how[|how| - 1]) && how[|how| - 1].search == s && how[|how| - 1].outcome == Succeeded(last.value)
  }

  /** A failure is never made up: the last event failed, or there is no recipe and nothing happened. */
  ghost predicate Failure(how: seq<Event>, hasRecipe: bool) {
    if how == [] then !hasRecipe else Fails(how[|how| - 1])
  }

  lemma SubmitsRun(outcome: Outcome, session: bool, dirty: bool, s: Search, last: Option<Scrape>)
    requires outcome.Succeeded? ==> last == Some(outcome.scrape)
    ensures Submits(Preparation(session, dirty, true) + [FullRun(s, outcome)], outcome.Succeeded?, true, session, dirty,
                    s, last)
  {
  }

  lemma SubmitMeaning(how: seq<Event>, ok: bool, hasRecipe: bool, session: bool, dirty: bool, s: Search,
                      last: Option<Scrape>)
    requires Submits(how, ok, hasRecipe, session, dirty, s, last)
    ensures if ok then Yields(how, s, last) else Failure(how, hasRecipe)
    ensures forall e :: e in how ==> !e.Refined?
  {
  }

  ghost function AllTries(served: seq<seq<Try>>): seq<Try> {
    if served == [] then [] else AllTries(served[..|served| - 1]) + served[|served| - 1]
  }

  /** Every executed request has exactly one result, its own, from its own tries. */
  ghost predicate OwnResults(served: seq<seq<Try>>, requests: seq<Request>, results: seq<BookingResult>) {
    && |served| == |results| <= |requests|
    && forall k :: 0 <= k < |results| ==> Served(served[k], requests[k], results[k]) && AllReal(served[k])
  }

  lemma RealTail(before: seq<Try>, mine: seq<Try>)
    requires AllReal(before + mine)
    ensures AllReal(mine)
  {
    forall i | 0 <= i < |mine| ensures Real(mine[i]) {
      assert (before + mine)[|before| + i] == mine[i];
    }
  }

  lemma ServedSnoc(served: seq<seq<Try>>, requests: seq<Request>, results: seq<BookingResult>, mine: seq<Try>,
                   result: BookingResult)
    requires OwnResults(served, requests, results) && |results| < |requests|
    requires Served(mine, requests[|results|], result) && AllReal(mine)
    ensures OwnResults(served + [mine], requests, results + [result])
    ensures AllTries(served + [mine]) == AllTries(served) + mine
  {
    assert (served + [mine])[..|served|] == served;
  }

  // ---------------------------------------------------------------- early stop

  /** Length of the run of confirmed-empty results at the end. */
  function Streak(results: seq<BookingResult>): nat {
    if results == [] || !results[|results| - 1].confirmedEmpty then 0 else 1 + Streak(results[..|results| - 1])
  }

  /** The first k results end in threshold consecutive confirmed-empties. */
  ghost predicate StopPoint(results: seq<BookingResult>, k: nat, threshold: nat) {
    k <= |results| && Streak(results[..k]) >= threshold
  }

  ghost predicate NoStopBefore(results: seq<BookingResult>, n: nat, threshold: nat) {
    forall k :: 0 < k < n ==> !StopPoint(results, k, threshold)
  }

  /** The executed part is the shortest prefix that ends in threshold consecutive confirmed-empties, or
      everything when there is none. */
  ghost predicate StopsAt(results: seq<BookingResult>, total: nat, threshold: nat) {
    && |results| <= total
    && NoStopBefore(results, |results|, threshold)
    && (|results| < total ==> results != [] && Streak(results) >= threshold)
  }

  /** The stopper's counter during a session, before (stop is false) or after it asked to stop. */
  ghost predicate StopperTracks(results: seq<BookingResult>, streak: nat, stop: bool, threshold: nat) {
    && streak == Streak(results)
    && (if stop then results != [] && streak >= threshold && NoStopBefore(results, |results|, threshold)
        else NoStopBefore(results, |results| + 1, threshold))
  }

  lemma StreakStep(results: seq<BookingResult>, r: BookingResult)
    ensures Streak(results + [r]) == if r.confirmedEmpty then Streak(results) + 1 else 0
  {
    assert (results + [r])[..|results|] == results;
  }

  lemma SameStops(results: seq<BookingResult>, r: BookingResult, k: nat, threshold: nat)
    requires k <= |results|
    ensures StopPoint(results + [r], k, threshold) <==> StopPoint(results, k, threshold)
  {
    assert (results + [r])[..k] == results[..k];
  }

  lemma NoStopSnoc(results: seq<BookingResult>, r: BookingResult, threshold: nat)
    requires NoStopBefore(results, |results| + 1, threshold)
    ensures NoStopBefore(results + [r], |results| + 1, threshold)
    ensures Streak(results + [r]) < threshold ==> NoStopBefore(results + [r], |results| + 2, threshold)
  {
    forall k | 0 < k <= |results| ensures !StopPoint(results + [r], k, threshold) {
      SameStops(results, r, k, threshold);
      assert !StopPoint(results, k, threshold);
    }
    assert (results + [r])[..|results| + 1] == results + [r];
  }

  lemma StreakSnoc(results: seq<BookingResult>, r: BookingResult, threshold: nat)
    requires StopperTracks(results, Streak(results), false, threshold)
    ensures var streak := if r.confirmedEmpty then Streak(results) + 1 else 0;
      StopperTracks(results + [r], streak, streak >= threshold, threshold)
  {
    StreakStep(results, r);
    NoStopSnoc(results, r, threshold);
  }

  /** The request was served by a scrape that showed the empty-results page. */
  ghost predicate ShowedEmptyPage(tries: seq<Try>) {
    tries != [] && tries[|tries| - 1].result.Some? &&
    exists scrape :: EndsWith(tries[|tries| - 1].events, tries[|tries| - 1].search, scrape) && scrape.hasEmptyPage
  }

  /** A result is confirmed empty exactly when the scrape that served its request showed the empty-results page;
      the error after all attempts failed never is. */
  lemma ConfirmedIff(tries: seq<Try>, req: Request, r: BookingResult)
    requires Served(tries, req, r) && AllReal(tries)
    ensures r.confirmedEmpty <==> ShowedEmptyPage(tries)
    ensures AllFailed(tries, req, |tries|) ==> !r.confirmedEmpty
  {
    if tries != [] {
      var last := tries[|tries| - 1];
      assert Real(last);
      if last.result.Some? {
        var scrape :| EndsWith(last.events, last.search, scrape) && Reports(last.result.value, last.search, scrape);
      }
    }
  }

  lemma AllConfirmed(served: seq<seq<Try>>, requests: seq<Request>, results: seq<BookingResult>)
    requires OwnResults(served, requests, results)
    ensures forall k :: 0 <= k < |results| ==> (results[k].confirmedEmpty <==> ShowedEmptyPage(served[k]))
  {
    forall k | 0 <= k < |results| ensures results[k].confirmedEmpty <==> ShowedEmptyPage(served[k]) {
      assert Served(served[k], requests[k], results[k]) && AllReal(served[k]);
      ConfirmedIff(served[k], requests[k], results[k]);
    }
  }

  /** A session that stops early ends in threshold requests whose scrapes showed the empty-results page. */
  lemma StoppedOnEmptyPages(served: seq<seq<Try>>, requests: seq<Request>, results: seq<BookingResult>, threshold: nat)
    requires OwnResults(served, requests, results) && StopsAt(results, |requests|, threshold)
    requires |results| < |requests|
    ensures threshold <= |results|
    ensures forall k :: |results| - threshold <= k < |results| ==> ShowedEmptyPage(served[k])
  {
    StreakMeaning(results, threshold);
    forall k | |results| - threshold <= k < |results| ensures ShowedEmptyPage(served[k]) {
      assert Served(served[k], requests[k], results[k]) && AllReal(served[k]);
      ConfirmedIff(served[k], requests[k], results[k]);
    }
  }

  /** ... and goes on as long as no threshold requests in a row did. */
  lemma NoEarlierStop(served: seq<seq<Try>>, requests: seq<Request>, results: seq<BookingResult>, threshold: nat,
                      n: nat)
    requires OwnResults(served, requests, results) && StopsAt(results, |requests|, threshold) && 0 < n < |results|
    ensures threshold <= n ==> exists k :: n - threshold <= k < n && !ShowedEmptyPage(served[k])
  {
    assert !StopPoint(results, n, threshold);
    StreakMeaning(results[..n], threshold);
    if threshold <= n {
      var k :| n - threshold <= k < n && !results[..n][k].confirmedEmpty;
      assert Served(served[k], requests[k], results[k]) && AllReal(served[k]);
      ConfirmedIff(served[k], requests[k], results[k]);
    }
  }

  lemma TrackedStops(results: seq<BookingResult>, streak: nat, stop: bool, total: nat, threshold: nat)
    requires StopperTracks(results, streak, stop, threshold) && |results| <= total && (|results| < total ==> stop)
    ensures StopsAt(results, total, threshold)
  {
  }

  /** The should_stop callback with its streak counter. */
  class ProbeStopper {
    var streak: nat
    const threshold: nat

    constructor (threshold: nat)
      ensures streak == 0 && this.threshold == threshold
    {
      streak, this.threshold := 0, threshold;
    }

    method ShouldStop(result: BookingResult) returns (stop: bool)
      modifies this
      ensures streak == if result.confirmedEmpty then old(streak) + 1 else 0
      ensures stop <==> streak >= threshold
    {
      if result.confirmedEmpty {
        streak := streak + 1;
      } else {
        streak := 0;
      }
      stop := streak >= threshold;
    }
  }

  /** What a streak counts. */
  lemma {:induction false} StreakMeaning(results: seq<BookingResult>, n: nat)
    ensures Streak(results) >= n <==>
      n <= |results| && forall i :: |results| - n <= i < |results| ==> results[i].confirmedEmpty
  {
    if results != [] && n > 0 {
      StreakMeaning(results[..|results| - 1], n - 1);
    }
  }
}
