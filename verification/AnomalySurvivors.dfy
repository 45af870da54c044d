/** Who guarantees that a cell keeps a price: the exact condition under which the anomaly filter leaves somebody,
    whatever the providers charge. */
module AnomalySurvivors {
  import opened Comprehension
  import opened CrossTariff
  import opened OrderStatistics

  ghost predicate Distinct(codes: seq<string>) {
    forall i, j :: 0 <= i < j < |codes| ==> codes[i] != codes[j]
  }

  /** How many of the providers have direct, not inferred, prices. */
  function Direct(codes: seq<string>, inferred: map<string, bool>): nat {
    if codes == [] then 0
    else Direct(codes[..|codes| - 1], inferred) + if IsInferred(inferred, codes[|codes| - 1]) then 0 else 1
  }

  /** The providers, each with at least one total, all totals positive. */
  ghost predicate PricedAs(groups: seq<ProviderTotals>, codes: seq<string>) {
    && |groups| == |codes|
    && forall i :: 0 <= i < |groups| ==>
         && groups[i].code == codes[i] && groups[i].totals != []
         && forall x :: x in groups[i].totals ==> x > 0.0
  }

  /** Whatever positive totals the providers have, the filter keeps somebody. */
  ghost predicate AlwaysPriced(codes: seq<string>, inferred: map<string, bool>, master: Option<string>) {
    forall groups :: PricedAs(groups, codes) ==> ValidTotals(groups, inferred, master) != []
  }

  ghost predicate MasterAmong(codes: seq<string>, master: Option<string>) {
    master.Some? && master.value in codes
  }

  /** The filter always keeps somebody exactly when the master is among the priced providers or at most two of
      them have direct prices. */
  lemma AlwaysPricedIff(codes: seq<string>, inferred: map<string, bool>, master: Option<string>)
    requires codes != [] && Distinct(codes)
    ensures AlwaysPriced(codes, inferred, master) <==> MasterAmong(codes, master) || Direct(codes, inferred) <= 2
  {
    if MasterAmong(codes, master) || Direct(codes, inferred) <= 2 {
      forall groups | PricedAs(groups, codes) ensures ValidTotals(groups, inferred, master) != [] {
        SomebodyStays(groups, codes, inferred, master);
      }
    } else {
      var groups := EverybodyGoes(codes, inferred, master);
      assert PricedAs(groups, codes);
    }
  }

  // ---------------------------------------------------------------- the votes

  function DirectOf(inferred: map<string, bool>): Priced -> Option<real> {
    (p: Priced) => if IsInferred(inferred, p.code) then None else Some(p.total)
  }

  ghost predicate Named(collapsed: seq<Priced>, codes: seq<string>) {
    |collapsed| == |codes| && forall i :: 0 <= i < |codes| ==> collapsed[i].code == codes[i]
  }

  lemma {:induction false} DirectCounts(collapsed: seq<Priced>, codes: seq<string>, inferred: map<string, bool>)
    requires Named(collapsed, codes)
    ensures |Gather(collapsed, DirectOf(inferred))| == Direct(codes, inferred)
  {
    if codes != [] {
      DirectCounts(collapsed[..|codes| - 1], codes[..|codes| - 1], inferred);
      GatherSnoc(collapsed, |codes| - 1, DirectOf(inferred));
      assert collapsed[..|codes| - 1 + 1] == collapsed;
    }
  }

  function Own(p: Priced, inferred: map<string, bool>): seq<real> {
    if IsInferred(inferred, p.code) then [] else [p.total]
  }

  lemma GatherAround<A, B>(s: seq<A>, i: nat, f: A -> Option<B>)
    requires i < |s|
    ensures Gather(s, f) == Gather(s[..i], f) + (if f(s[i]).Some? then [f(s[i]).value] else []) + Gather(s[i + 1..], f)
  {
    assert s == s[..i + 1] + s[i + 1..];
    GatherSplit(s[..i + 1], s[i + 1..], f);
    GatherSnoc(s, i, f);
  }

  /** A provider's witnesses are all direct prices but its own. */
  lemma WitnessesAreOthers(collapsed: seq<Priced>, codes: seq<string>, i: nat, inferred: map<string, bool>)
    requires Named(collapsed, codes) && Distinct(codes) && i < |codes|
    ensures var f := DirectOf(inferred);
      && Witnesses(collapsed, codes[i], inferred) == Gather(collapsed[..i], f) + Gather(collapsed[i + 1..], f)
      && Gather(collapsed, f) == Gather(collapsed[..i], f) + Own(collapsed[i], inferred) + Gather(collapsed[i + 1..], f)
  {
    var f, w := DirectOf(inferred), WitnessOf(codes[i], inferred);
    GatherAround(collapsed, i, f);
    GatherAround(collapsed, i, w);
    GatherCongruence(collapsed[..i], f, w);
    GatherCongruence(collapsed[i + 1..], f, w);
    DropNothing(Gather(collapsed[..i], f), Gather(collapsed[i + 1..], f));
  }

  lemma DropNothing(a: seq<real>, b: seq<real>)
    ensures a + [] + b == a + b
  {
  }

  lemma WitnessCounts(collapsed: seq<Priced>, codes: seq<string>, i: nat, inferred: map<string, bool>, lo: real,
                      hi: real)
    requires Named(collapsed, codes) && Distinct(codes) && i < |codes|
    ensures var w, own := Witnesses(collapsed, codes[i], inferred), Own(collapsed[i], inferred);
      && |w| + |own| == Direct(codes, inferred)
      && CountIn(w, lo, hi) + CountIn(own, lo, hi) == CountIn(Gather(collapsed, DirectOf(inferred)), lo, hi)
  {
    var f := DirectOf(inferred);
    WitnessesAreOthers(collapsed, codes, i, inferred);
    DirectCounts(collapsed, codes, inferred);
    var front, back := Gather(collapsed[..i], f), Gather(collapsed[i + 1..], f);
    CountInSplit(front, back, lo, hi);
    CountInSplit(front + Own(collapsed[i], inferred), back, lo, hi);
    CountInSplit(front, Own(collapsed[i], inferred), lo, hi);
  }

  // ---------------------------------------------------------------- when somebody stays

  lemma {:induction false} AllCollapse(groups: seq<ProviderTotals>)
    requires forall i :: 0 <= i < |groups| ==> groups[i].totals != []
    ensures |Collapse(groups)| == |groups|
    ensures forall i :: 0 <= i < |groups| ==> Collapse(groups)[i] == Priced(groups[i].code, Min(groups[i].totals))
  {
    if groups != [] {
      AllCollapse(groups[1..]);
    }
  }

  lemma Kept(collapsed: seq<Priced>, i: nat, inferred: map<string, bool>, master: Option<string>)
    requires i < |collapsed| && !IsAnomaly(collapsed, collapsed[i], inferred, master)
    ensures Gather(collapsed, KeptTotal(collapsed, inferred, master)) != []
  {
    assert KeptTotal(collapsed, inferred, master)(collapsed[i]) == Some(collapsed[i].total);
    GatherMembers(collapsed, KeptTotal(collapsed, inferred, master), collapsed[i].total);
  }

  /** The last direct provider, or the last of all when none is direct. */
  lemma {:induction false} SomeDirect(codes: seq<string>, inferred: map<string, bool>) returns (i: nat)
    requires codes != []
    ensures i < |codes| && (Direct(codes, inferred) > 0 ==> !IsInferred(inferred, codes[i]))
  {
    i := |codes| - 1;
    if IsInferred(inferred, codes[i]) && Direct(codes, inferred) > 0 {
      assert Direct([], inferred) == 0 && Direct(codes[..i], inferred) > 0;
      i := SomeDirect(codes[..i], inferred);
    }
  }

  lemma SomebodyStays(groups: seq<ProviderTotals>, codes: seq<string>, inferred: map<string, bool>,
                      master: Option<string>)
    requires codes != [] && Distinct(codes) && PricedAs(groups, codes)
    requires MasterAmong(codes, master) || Direct(codes, inferred) <= 2
    ensures ValidTotals(groups, inferred, master) != []
  {
    var collapsed := Collapse(groups);
    AllCollapse(groups);
    if MasterAmong(codes, master) {
      var i :| 0 <= i < |codes| && codes[i] == master.value;
      Kept(collapsed, i, inferred, master);
    } else {
      var i := SomeDirect(codes, inferred);
      WitnessCounts(collapsed, codes, i, inferred, 0.0, 0.0);
      Kept(collapsed, i, inferred, master);
    }
  }

  // ---------------------------------------------------------------- when everybody may go

  /** The totals of d direct providers: 1, 100, 1, 100, ..., and a last 10 when d is odd. */
  function Vote(d: nat, r: nat): real {
    if d % 2 == 1 && r == d - 1 then 10.0 else if r % 2 == 0 then 1.0 else 100.0
  }

  function Votes(d: nat, m: nat): seq<real> {
    if m == 0 then [] else Votes(d, m - 1) + [Vote(d, m - 1)]
  }

  lemma {:induction false} PairsCount(d: nat, k: nat, lo: real, hi: real)
    requires 2 * k <= d
    ensures CountIn(Votes(d, 2 * k), lo, hi) == (if lo <= 1.0 <= hi then k else 0) + if lo <= 100.0 <= hi then k else 0
  {
    if k > 0 {
      PairsCount(d, k - 1, lo, hi);
      assert Votes(d, 2 * k) == Votes(d, 2 * k - 1) + [100.0] && Votes(d, 2 * k - 1) == Votes(d, 2 * (k - 1)) + [1.0];
      CountInSplit(Votes(d, 2 * k - 1), [100.0], lo, hi);
      CountInSplit(Votes(d, 2 * (k - 1)), [1.0], lo, hi);
    }
  }

  lemma VotesCount(d: nat, lo: real, hi: real)
    ensures CountIn(Votes(d, d), lo, hi) ==
      (if lo <= 1.0 <= hi then d / 2 else 0) + (if lo <= 100.0 <= hi then d / 2 else 0)
      + if d % 2 == 1 && lo <= 10.0 <= hi then 1 else 0
  {
    PairsCount(d, d / 2, lo, hi);
    if d % 2 == 1 {
      assert d - 1 == 2 * (d / 2);
      CountInSplit(Votes(d, d - 1), [10.0], lo, hi);
    }
  }

  function TotalOf(codes: seq<string>, inferred: map<string, bool>, i: nat): real
    requires i < |codes|
  {
    if IsInferred(inferred, codes[i]) then 1000000.0 else Vote(Direct(codes, inferred), Direct(codes[..i], inferred))
  }

  function Quotes(codes: seq<string>, inferred: map<string, bool>): seq<Priced> {
    seq(|codes|, i requires 0 <= i < |codes| => Priced(codes[i], TotalOf(codes, inferred, i)))
  }

  lemma {:induction false} QuotesVote(codes: seq<string>, inferred: map<string, bool>, n: nat)
    requires n <= |codes|
    ensures Gather(Quotes(codes, inferred)[..n], DirectOf(inferred)) ==
      Votes(Direct(codes, inferred), Direct(codes[..n], inferred))
  {
    if n > 0 {
      QuotesVote(codes, inferred, n - 1);
      GatherSnoc(Quotes(codes, inferred), n - 1, DirectOf(inferred));
      assert codes[..n][..n - 1] == codes[..n - 1];
    }
  }

  /** The witnesses of the i-th provider, counted. */
  lemma QuoteWitnesses(codes: seq<string>, inferred: map<string, bool>, i: nat, lo: real, hi: real)
    requires Distinct(codes) && i < |codes|
    ensures var d, w, own := Direct(codes, inferred), Witnesses(Quotes(codes, inferred), codes[i], inferred),
                             Own(Quotes(codes, inferred)[i], inferred);
      && |w| + |own| == d
      && CountIn(w, lo, hi) + CountIn(own, lo, hi) ==
           (if lo <= 1.0 <= hi then d / 2 else 0) + (if lo <= 100.0 <= hi then d / 2 else 0)
           + if d % 2 == 1 && lo <= 10.0 <= hi then 1 else 0
  {
    var quotes, d := Quotes(codes, inferred), Direct(codes, inferred);
    assert Named(quotes, codes);
    WitnessCounts(quotes, codes, i, inferred, lo, hi);
    QuotesVote(codes, inferred, |codes|);
    assert quotes[..|codes|] == quotes && codes[..|codes|] == codes;
    VotesCount(d, lo, hi);
  }

  /** Witnesses are votes, so none is negative. */
  lemma WitnessesPositive(codes: seq<string>, inferred: map<string, bool>, i: nat, j: nat)
    requires i < |codes| && j < |Witnesses(Quotes(codes, inferred), codes[i], inferred)|
    ensures Witnesses(Quotes(codes, inferred), codes[i], inferred)[j] >= 0.0
  {
    var quotes, w := Quotes(codes, inferred), Witnesses(Quotes(codes, inferred), codes[i], inferred);
    assert w[j] in w;
    GatherMembers(quotes, WitnessOf(codes[i], inferred), w[j]);
  }

  lemma TooFar(total: real, witnesses: seq<real>, lo: real, hi: real)
    requires |witnesses| >= 2 && 0.0 < lo <= Median(witnesses) <= hi
    requires total < LOW_RATIO * lo || total > HIGH_RATIO * hi
    ensures OutOfRange(total, witnesses)
  {
    CompareRatio(total, Median(witnesses), LOW_RATIO);
    CompareRatio(total, Median(witnesses), HIGH_RATIO);
  }

  /** Each provider is too far from the median of the others. */
  lemma EachGoes(codes: seq<string>, inferred: map<string, bool>, i: nat)
    requires Distinct(codes) && i < |codes| && Direct(codes, inferred) >= 3
    ensures OutOfRange(Quotes(codes, inferred)[i].total, Witnesses(Quotes(codes, inferred), codes[i], inferred))
  {
    var w, total := Witnesses(Quotes(codes, inferred), codes[i], inferred), Quotes(codes, inferred)[i].total;
    QuoteWitnesses(codes, inferred, i, 1.0, 100.0);
    if total == 1.0 {
      QuoteWitnesses(codes, inferred, i, 10.0, 100.0);
      MajorityPinsMedian(w, 10.0, 100.0);
      TooFar(total, w, 10.0, 100.0);
    } else if total == 100.0 {
      QuoteWitnesses(codes, inferred, i, 1.0, 10.0);
      MajorityPinsMedian(w, 1.0, 10.0);
      TooFar(total, w, 1.0, 10.0);
    } else if total == 10.0 {
      QuoteWitnesses(codes, inferred, i, 100.0, 100.0);
      forall j | 0 <= j < |w| ensures w[j] >= 0.0 { WitnessesPositive(codes, inferred, i, j); }
      HalfPullsMedian(w, 100.0, 100.0);
      TooFar(total, w, 50.0, Median(w));
    } else {
      MajorityPinsMedian(w, 1.0, 100.0);
      TooFar(total, w, 1.0, 100.0);
    }
  }

  lemma EverybodyGoes(codes: seq<string>, inferred: map<string, bool>, master: Option<string>)
    returns (groups: seq<ProviderTotals>)
    requires Distinct(codes) && !MasterAmong(codes, master) && Direct(codes, inferred) > 2
    ensures PricedAs(groups, codes) && ValidTotals(groups, inferred, master) == []
  {
    groups := Single(Quotes(codes, inferred));
    SingleCollapses(Quotes(codes, inferred));
    forall i | 0 <= i < |codes| ensures Quotes(codes, inferred)[i].total > 0.0 {
    }
    NothingKept(codes, inferred, master);
  }

  lemma NothingKept(codes: seq<string>, inferred: map<string, bool>, master: Option<string>)
    requires Distinct(codes) && !MasterAmong(codes, master) && Direct(codes, inferred) > 2
    ensures Gather(Quotes(codes, inferred), KeptTotal(Quotes(codes, inferred), inferred, master)) == []
  {
    var quotes := Quotes(codes, inferred);
    forall i | 0 <= i < |quotes| ensures KeptTotal(quotes, inferred, master)(quotes[i]) == None {
      EachGoes(codes, inferred, i);
    }
    GatherNothing(quotes, KeptTotal(quotes, inferred, master));
  }

  /** One total per provider. */
  function Single(quotes: seq<Priced>): seq<ProviderTotals> {
    seq(|quotes|, i requires 0 <= i < |quotes| => ProviderTotals(quotes[i].code, [quotes[i].total]))
  }

  lemma SingleCollapses(quotes: seq<Priced>)
    ensures Collapse(Single(quotes)) == quotes
  {
    AllCollapse(Single(quotes));
    forall i | 0 <= i < |quotes| ensures Collapse(Single(quotes))[i] == quotes[i] {
      assert Sort([quotes[i].total]) == [quotes[i].total];
    }
  }
}
