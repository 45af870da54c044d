/** classify_vehicle: the deterministic rules that turn a matched dictionary entry and the signals found
    in the scraped text into four letters. Text detectors are inputs. */
module AcrissClassifier {
  import opened Comprehension
  import opened AcrissLetters

  datatype PowertrainMode = BevOnly | HybridOnly | PhevOnly | IceOnly | IceDominant | Mixed

  datatype TypeAlternative = TypeAlternative(body: Option<char>, confidence: Option<real>)

  datatype Entry = Entry(
    name: string,                       // lower-cased "make model"
    category: Option<char>, categoryConfidence: Option<real>,
    body: Option<char>, bodyConfidence: Option<real>, typeAlternative: Option<TypeAlternative>,
    mode: PowertrainMode, defaultFuel: char, powertrainConfidence: Option<real>,
    van: bool, vanElite: bool, vanDefaultFirst: Option<char>)

  /** A non-empty source override. */
  datatype Override = Override(category: Option<char>, body: Option<char>, confidence: Option<real>)

  datatype TransmissionSignal = ScrapedSignal(code: char) | NameSignal(code: char) | NoSignal

  datatype Vehicle = Vehicle(
    words: seq<string>,                 // words of the normalized name
    seats: Option<int>, doors: Option<int>,
    entry: Option<Entry>, fuzzy: bool,  // dictionary match, and whether it was a fuzzy one
    override_: Option<Override>,        // only ever found for a matched entry
    powertrain: Option<char>,           // fuel letter from an explicit token
    transmission: TransmissionSignal)

  ghost predicate Consistent(v: Vehicle) {
    (v.override_.Some? ==> v.entry.Some?) && (v.fuzzy ==> v.entry.Some?)
  }

  datatype Alternative = Alternative(acriss: string, confidence: real)

  datatype Classified = Classified(letters: Letters, alternatives: seq<Alternative>, ambiguous: bool, unresolved: bool)

  function Or(x: Option<real>, default: real): real {
    if x.Some? then x.value else default
  }

  function Max(x: real, y: real): real { if x >= y then x else y }

  // ---------------------------------------------------------------- name tokens

  datatype Token = Token(word: string, code: char)

  const STRONG_TOKENS: seq<Token> := [
    Token("convertible", 'T'), Token("cabrio", 'T'), Token("cabriolet", 'T'), Token("descapotable", 'T'),
    Token("variant", 'W'), Token("estate", 'W'), Token("sw", 'W'), Token("touring", 'W'),
    Token("kombi", 'W'), Token("avant", 'W'), Token("break", 'W'), Token("sportstourer", 'W'),
    Token("roadster", 'N'), Token("coupe", 'E'),
    Token("furgon", 'K'), Token("furgoneta", 'K'), Token("cargo", 'K')]

  const WEAK_TOKENS: seq<Token> := [
    Token("crossover", 'G'), Token("cuv", 'G'), Token("suv", 'F'),
    Token("monovolumen", 'M'), Token("mpv", 'M'), Token("monospace", 'M'),
    Token("sedan", 'D'), Token("berlina", 'D'), Token("saloon", 'D')]

  /** The first token of the table that is a word of the name. */
  function FindToken(words: seq<string>, tokens: seq<Token>): Option<Token> {
    if tokens == [] then None
    else if tokens[0].word in words then Some(tokens[0])
    else FindToken(words, tokens[1..])
  }

  predicate Substring(a: string, b: string) {
    a <= b || (b != [] && Substring(a, b[1..]))
  }

  ghost predicate StandsAt(a: string, b: string, i: nat) {
    i + |a| <= |b| && b[i..i + |a|] == a
  }

  lemma {:induction false} SubstringMeaning(a: string, b: string)
    ensures Substring(a, b) <==> exists i: nat :: StandsAt(a, b, i)
  {
    if a <= b {
      assert StandsAt(a, b, 0);
    } else if b != [] {
      SubstringMeaning(a, b[1..]);
      if Substring(a, b[1..]) {
        var i: nat :| StandsAt(a, b[1..], i);
        assert b[i + 1..i + 1 + |a|] == b[1..][i..i + |a|];
        assert StandsAt(a, b, i + 1);
      }
      if i: nat :| StandsAt(a, b, i) {
        assert i > 0;
        assert b[1..][i - 1..i - 1 + |a|] == b[i..i + |a|];
        assert StandsAt(a, b[1..], i - 1);
      }
    }
  }

  // ---------------------------------------------------------------- letters

  function VanFirstLetter(seats: int, elite: bool): char {
    if seats >= 15 then 'O'
    else if seats >= 12 then 'X'
    else if seats >= 9 then (if elite then 'W' else 'L')
    else if seats >= 8 then (if elite then 'U' else 'P')
    else if seats >= 7 then (if elite then 'R' else 'S')
    else if elite then 'J' else 'I'
  }

  /** A van family counts as a passenger van with six seats or more, or with unknown seats. */
  predicate VanCoding(v: Vehicle) {
    v.entry.Some? && v.entry.value.van && (v.seats == None || v.seats.value >= 6)
  }

  function VanCategory(v: Vehicle): Letter
    requires VanCoding(v)
  {
    var e := v.entry.value;
    if v.seats.Some? then Letter(Some(VanFirstLetter(v.seats.value, e.vanElite)), 0.95, FromDictionary)
    else if e.vanDefaultFirst.Some? then Letter(e.vanDefaultFirst, 0.85, FromDictionary)
    else Letter(Some('S'), 0.60, FromDictionary)
  }

  function FuzzyCap(v: Vehicle, confidence: real): real {
    if v.fuzzy then AcrissLetters.Min(confidence, 0.88) else confidence
  }

  function ResolveCategory(v: Vehicle): Letter {
    if v.override_.Some? && v.override_.value.category.Some? then
      Letter(v.override_.value.category, Or(v.override_.value.confidence, 0.99), FromOverride)
    else if v.entry.Some? then
      Letter(v.entry.value.category, FuzzyCap(v, Or(v.entry.value.categoryConfidence, 0.90)), FromDictionary)
    else Letter(None, 0.0, Fallback)
  }

  function ResolveBody(v: Vehicle): Letter {
    var strong := FindToken(v.words, STRONG_TOKENS);
    if v.override_.Some? && v.override_.value.body.Some? then
      Letter(v.override_.value.body, Or(v.override_.value.confidence, 0.99), FromOverride)
    else if strong.Some? && (v.entry == None || !Substring(strong.value.word, v.entry.value.name)) then
      Letter(Some(strong.value.code), 0.98, FromName)
    else if v.entry.Some? then
      Letter(v.entry.value.body, FuzzyCap(v, Or(v.entry.value.bodyConfidence, 0.90)), FromDictionary)
    else if FindToken(v.words, WEAK_TOKENS).Some? then
      Letter(Some(FindToken(v.words, WEAK_TOKENS).value.code), 0.75, FromName)
    else if v.doors.Some? then
      Letter(Some(if v.doors.value <= 3 then 'B' else 'D'), 0.70, Heuristic)
    else Letter(None, 0.0, Fallback)
  }

  /** The fuel letter, whether the powertrain is ambiguous, and an alternative fuel. */
  function ResolveFuel(v: Vehicle): (Letter, bool, Option<(char, real)>) {
    if v.powertrain.Some? then (Letter(v.powertrain, 0.99, FromName), false, None)
    else if v.entry.Some? then
      var e, c := v.entry.value, Or(v.entry.value.powertrainConfidence, 0.80);
      match e.mode
      case BevOnly => (Letter(Some('E'), Max(c, 0.99), FromDictionary), false, None)
      case HybridOnly => (Letter(Some('H'), c, FromDictionary), false, None)
      case PhevOnly => (Letter(Some('I'), c, FromDictionary), false, None)
      case IceOnly => (Letter(Some('R'), Max(c, 0.95), FromDictionary), false, None)
      case IceDominant => (Letter(Some('R'), AcrissLetters.Min(Max(c, 0.90), 0.95), Fallback), false, None)
      case Mixed =>
        (Letter(Some(e.defaultFuel), AcrissLetters.Min(c, 0.85), Fallback), true,
         if e.defaultFuel == 'R' then Some(('H', AcrissLetters.Min(c, 0.85) - 0.05)) else None)
    else (Letter(Some('R'), 0.70, Fallback), true, None)
  }

  function SignalLetter(s: TransmissionSignal): Letter {
    match s
    case ScrapedSignal(c) => Letter(Some(c), 1.0, FromScrape)
    case NameSignal(c) => Letter(Some(c), 0.98, FromName)
    case NoSignal => Letter(None, 0.0, Fallback)
  }

  /** An electric car is automatic when nothing else is known, whether the electricity is in the name
      or in the family. */
  function ResolveTransmission(v: Vehicle, fuel: Letter): Letter {
    var signal := SignalLetter(v.transmission);
    if signal.code == None && (v.powertrain == Some('E') ||
      fuel.code == Some('E')) then Letter(Some('A'), 0.97, Heuristic)
    else signal
  }

  /** The declared body alternative of the entry, kept only when it differs from the resolved letter. */
  function BodyAlternative(v: Vehicle, l: Letters): seq<Alternative> {
    if VanCoding(v) || v.entry == None || v.override_.Some? then []
    else match v.entry.value.typeAlternative
      case None => []
      case Some(alt) =>
        if l.body.code.Some? && alt.body.Some? && alt.body != l.body.code then
          [Alternative([Render(l.category), alt.body.value, Render(l.transmission), Render(l.fuel)],
                       Or(alt.confidence, 0.7))]
        else []
  }

  function ClassifyVehicle(v: Vehicle): Classified {
    var category := if VanCoding(v) then VanCategory(v) else ResolveCategory(v);
    var body := if VanCoding(v) then Letter(Some('V'), Or(v.entry.value.bodyConfidence, 0.95), FromDictionary)
      else ResolveBody(v);
    var fuel := ResolveFuel(v);
    var letters := Letters(category, body, ResolveTransmission(v, fuel.0), fuel.0);
    var code := Code(letters);
    var fuelAlternative :=
      if fuel.2.Some? && code.Some? then [Alternative(code.value[..3] + [fuel.2.value.0], fuel.2.value.1)] else [];
    Classified(letters, BodyAlternative(v, letters) + fuelAlternative, fuel.1, v.entry == None)
  }

  // ---------------------------------------------------------------- the non-negotiable rules

  /** An unknown model never gets a category, hence never Special, and always goes to review. */
  lemma UnknownStaysOpen(v: Vehicle)
    requires Consistent(v) && v.entry == None
    ensures var c := ClassifyVehicle(v);
      && c.letters.category.code == None && c.unresolved && Code(c.letters) == None
      && ShouldReview(c.letters, c.unresolved, c.ambiguous)
  {
    var c := ClassifyVehicle(v);
    assert Partial(c.letters)[0] == '?';
  }

  lemma {:induction false} TokenFromTable(words: seq<string>, tokens: seq<Token>)
    ensures FindToken(words, tokens).Some? ==>
      FindToken(words, tokens).value in tokens && FindToken(words, tokens).value.word in words
  {
    if tokens != [] {
      TokenFromTable(words, tokens[1..]);
    }
  }

  /** No body word has four letters. */
  lemma StrongLengths()
    ensures forall i :: 0 <= i < |STRONG_TOKENS| ==> |STRONG_TOKENS[i].word| != 4
  {
    forall i | 0 <= i < |STRONG_TOKENS| ensures |STRONG_TOKENS[i].word| != 4 {
      if i < 6 {
      } else if i < 12 {
      } else {
      }
    }
  }

  lemma {:induction false} NoWordOfLength(word: string, tokens: seq<Token>)
    requires forall i :: 0 <= i < |tokens| ==> |tokens[i].word| != |word|
    ensures FindToken([word], tokens) == None
  {
    if tokens != [] {
      NoWordOfLength(word, tokens[1..]);
    }
  }

  predicate NoVanCode(tokens: seq<Token>) {
    forall i :: 0 <= i < |tokens| ==> tokens[i].code != 'V'
  }

  lemma StrongIsNoVan()
    ensures NoVanCode(STRONG_TOKENS)
  {
  }

  lemma WeakIsNoVan()
    ensures NoVanCode(WEAK_TOKENS)
  {
  }

  lemma TokenIsNoVan(words: seq<string>, tokens: seq<Token>)
    requires NoVanCode(tokens)
    ensures FindToken(words, tokens).Some? ==> FindToken(words, tokens).value.code != 'V'
  {
    TokenFromTable(words, tokens);
  }

  /** Seats alone never make a passenger van: the letter V needs a van family, a dictionary body V or an
      override. */
  lemma VanNeedsEvidence(v: Vehicle)
    requires ClassifyVehicle(v).letters.body.code == Some('V')
    ensures || (v.entry.Some? && (v.entry.value.van || v.entry.value.body == Some('V')))
            || (v.override_.Some? && v.override_.value.body == Some('V'))
  {
    StrongIsNoVan();
    WeakIsNoVan();
    TokenIsNoVan(v.words, STRONG_TOKENS);
    TokenIsNoVan(v.words, WEAK_TOKENS);
  }

  /** An alternative code differs from the resolved letters in exactly one position, body or fuel. */
  lemma AlternativesDifferOnce(v: Vehicle, a: Alternative)
    requires a in ClassifyVehicle(v).alternatives
    ensures var p := Partial(ClassifyVehicle(v).letters);
      |a.acriss| == 4 && a.acriss[0] == p[0] && a.acriss[2] == p[2] && ((a.acriss[1] != p[1]) != (a.acriss[3] != p[3]))
  {
  }

  /** The source recorded with the category and the body tells the truth, and the sources rank: an override
      before a body word of the name, that before the dictionary, and weak words and doors only for an
      unknown model. */
  lemma SourcesRank(v: Vehicle)
    requires Consistent(v) && !VanCoding(v)
    ensures var l := ClassifyVehicle(v).letters;
      && (l.category.source == FromOverride <==> v.override_.Some? && v.override_.value.category.Some?)
      && (l.category.source == FromOverride ==> l.category.code == v.override_.value.category)
      && (l.category.source == FromDictionary ==> v.entry.Some? && l.category.code == v.entry.value.category)
      && (v.fuzzy && l.category.source == FromDictionary ==> l.category.confidence <= 0.88)
      && (v.fuzzy && l.body.source == FromDictionary ==> l.body.confidence <= 0.88)
      && (l.category.source == Fallback <==> v.entry == None)
      && (l.body.source == FromOverride <==> v.override_.Some? && v.override_.value.body.Some?)
      && (l.body.source == FromOverride ==> l.body.code == v.override_.value.body)
      && (l.body.source == FromDictionary ==> v.entry.Some? && l.body.code == v.entry.value.body)
      && (l.body.source == Heuristic ==> v.entry == None && v.doors.Some? && !NamesBody(v.words, WEAK_TOKENS))
      && (l.body.source == Heuristic ==> l.body.code == if v.doors.value <= 3 then Some('B') else Some('D'))
      && (l.body.source == Fallback ==> v.entry == None && v.doors == None && !NamesBody(v.words, STRONG_TOKENS))
      && (l.body.source == FromName ==> exists t ::
           t in STRONG_TOKENS + WEAK_TOKENS && t.word in v.words && l.body.code == Some(t.code))
  {
    TokenFromTable(v.words, STRONG_TOKENS);
    TokenFromTable(v.words, WEAK_TOKENS);
    NoTokenNoBody(v.words, STRONG_TOKENS);
    NoTokenNoBody(v.words, WEAK_TOKENS);
    if ClassifyVehicle(v).letters.body.source == FromName {
      var t := FindToken(v.words, if FindToken(v.words, STRONG_TOKENS).Some? then STRONG_TOKENS else WEAK_TOKENS).value;
      assert t in STRONG_TOKENS + WEAK_TOKENS;
    }
  }

  ghost predicate NamesBody(words: seq<string>, tokens: seq<Token>) {
    exists t :: t in tokens && t.word in words
  }

  lemma {:induction false} NoTokenNoBody(words: seq<string>, tokens: seq<Token>)
    ensures FindToken(words, tokens) == None <==> !NamesBody(words, tokens)
  {
    if tokens != [] {
      NoTokenNoBody(words, tokens[1..]);
      assert tokens[0] in tokens;
      if t :| t in tokens[1..] && t.word in words {
        assert t in tokens;
      }
      if t :| t in tokens && t.word in words {
        assert t == tokens[0] || t in tokens[1..];
      }
    }
  }

  /** The fuel letter: the word in the name, else electric, hybrid, plug-in or petrol-like for families of that one
      drive, and the family's default for mixed ones; only mixed families and unknown models stay ambiguous. The
      transmission letter: the signal's, else automatic exactly for electric cars. */
  lemma DriveLetters(v: Vehicle)
    ensures var c := ClassifyVehicle(v);
      && (v.powertrain.Some? ==> c.letters.fuel.code == v.powertrain && !c.ambiguous)
      && (v.powertrain == None && v.entry.Some? ==>
            && (v.entry.value.mode == BevOnly ==> c.letters.fuel.code == Some('E'))
            && (v.entry.value.mode == HybridOnly ==> c.letters.fuel.code == Some('H'))
            && (v.entry.value.mode == PhevOnly ==> c.letters.fuel.code == Some('I'))
            && (v.entry.value.mode == IceOnly || v.entry.value.mode == IceDominant ==>
                  c.letters.fuel.code == Some('R'))
            && (v.entry.value.mode == Mixed ==> c.letters.fuel.code == Some(v.entry.value.defaultFuel)))
      && (c.ambiguous <==> v.powertrain == None && (v.entry == None || v.entry.value.mode == Mixed))
      && (c.ambiguous ==> c.letters.fuel.confidence <= 0.85)
      && (forall t :: v.transmission == ScrapedSignal(t) || v.transmission == NameSignal(t) ==>
            c.letters.transmission.code == Some(t))
      && (v.transmission == NoSignal ==>
            c.letters.transmission.code == if c.letters.fuel.code == Some('E') then Some('A') else None)
  {
  }

  /** The category of a passenger van goes by its seats. */
  lemma VanBySeats(v: Vehicle, seats: int)
    requires VanCoding(v) && v.seats == Some(seats)
    ensures var band := if seats < 7 then 0 else if seats == 7 then 1 else if seats == 8 then 2
                        else if seats <= 11 then 3 else if seats <= 14 then 4 else 5;
      ClassifyVehicle(v).letters.category.code == Some((if v.entry.value.vanElite then "JRUWXO" else "ISPLXO")[band])
  {
  }

  // ---------------------------------------------------------------- when nobody has to look

  /** None of the letters an input carries is the placeholder. */
  ghost predicate Lettered(v: Vehicle) {
    && v.powertrain != Some('?')
    && v.transmission != ScrapedSignal('?') && v.transmission != NameSignal('?')
    && (v.entry.Some? ==> v.entry.value.category != Some('?') && v.entry.value.body != Some('?')
                          && v.entry.value.defaultFuel != '?' && v.entry.value.vanDefaultFirst != Some('?'))
    && (v.override_.Some? ==> v.override_.value.category != Some('?') && v.override_.value.body != Some('?'))
  }

  predicate Sure(confidence: Option<real>, default: real) {
    Or(confidence, default) >= TRUSTED
  }

  /** The category is known and trusted: from the seats or the family of a van, from an override, or from the
      dictionary. */
  predicate CategorySettled(v: Vehicle) {
    if VanCoding(v) then v.seats.Some? || v.entry.value.vanDefaultFirst.Some?
    else if v.override_.Some? && v.override_.value.category.Some? then Sure(v.override_.value.confidence, 0.99)
    else v.entry.Some? && v.entry.value.category.Some? && Sure(v.entry.value.categoryConfidence, 0.90)
  }

  /** A strong body word that the dictionary name does not already contain. */
  predicate NameSettlesBody(v: Vehicle) {
    var strong := FindToken(v.words, STRONG_TOKENS);
    strong.Some? && (v.entry == None || !Substring(strong.value.word, v.entry.value.name))
  }

  predicate BodySettled(v: Vehicle) {
    if VanCoding(v) then Sure(v.entry.value.bodyConfidence, 0.95)
    else if v.override_.Some? && v.override_.value.body.Some? then Sure(v.override_.value.confidence, 0.99)
    else NameSettlesBody(v) || (v.entry.Some? && v.entry.value.body.Some? && Sure(v.entry.value.bodyConfidence, 0.90))
  }

  predicate Electric(v: Vehicle) {
    if v.powertrain.Some? then v.powertrain == Some('E')
    else if v.entry == None then false
    else v.entry.value.mode == BevOnly || (v.entry.value.mode == Mixed && v.entry.value.defaultFuel == 'E')
  }

  predicate FuelSettled(v: Vehicle) {
    v.powertrain.Some?
    || (v.entry.Some? && (v.entry.value.mode in {BevOnly, IceOnly, IceDominant} ||
         Sure(v.entry.value.powertrainConfidence, 0.80)))
  }

  /** Everything is known and trusted about the vehicle. */
  predicate Settled(v: Vehicle) {
    && v.entry.Some? && CategorySettled(v) && BodySettled(v) && FuelSettled(v)
    && (v.transmission != NoSignal || Electric(v))
  }

  predicate Trusted(l: Letter) {
    l.code.Some? && l.confidence >= TRUSTED
  }

  lemma CategoryIff(v: Vehicle)
    requires v.entry.Some?
    ensures Trusted(ClassifyVehicle(v).letters.category) <==> CategorySettled(v)
  {
  }

  lemma BodyIff(v: Vehicle)
    requires v.entry.Some?
    ensures Trusted(ClassifyVehicle(v).letters.body) <==> BodySettled(v)
  {
  }

  lemma FuelIff(v: Vehicle)
    requires v.entry.Some?
    ensures Trusted(ClassifyVehicle(v).letters.fuel) <==> FuelSettled(v)
    ensures ClassifyVehicle(v).letters.fuel.code == Some('E') <==> Electric(v)
  {
  }

  lemma NoPlaceholder(v: Vehicle)
    requires Lettered(v)
    ensures var l := ClassifyVehicle(v).letters;
      l.category.code != Some('?') && l.body.code != Some('?') && l.transmission.code != Some('?') &&
        l.fuel.code != Some('?')
  {
    ProperBody(v);
  }

  lemma ProperBody(v: Vehicle)
    requires Lettered(v)
    ensures ResolveBody(v).code != Some('?')
  {
    ProperToken(v.words, STRONG_TOKENS);
    ProperToken(v.words, WEAK_TOKENS);
  }

  predicate Proper(tokens: seq<Token>) {
    forall i :: 0 <= i < |tokens| ==> tokens[i].code != '?'
  }

  lemma StrongIsProper()
    ensures Proper(STRONG_TOKENS)
  {
  }

  lemma WeakIsProper()
    ensures Proper(WEAK_TOKENS)
  {
  }

  lemma ProperToken(words: seq<string>, tokens: seq<Token>)
    requires tokens == STRONG_TOKENS || tokens == WEAK_TOKENS
    ensures FindToken(words, tokens).Some? ==> FindToken(words, tokens).value.code != '?'
  {
    StrongIsProper();
    WeakIsProper();
    TokenFromTable(words, tokens);
  }

  /** A vehicle gets a complete code and needs no review exactly when its model is known and each of the four
      letters has a trusted source; whether the model was matched exactly or fuzzily plays no part. */
  lemma NoReviewIff(v: Vehicle)
    requires Lettered(v)
    ensures var c := ClassifyVehicle(v);
      Code(c.letters).Some? && !ShouldReview(c.letters, c.unresolved, c.ambiguous) <==> Settled(v)
  {
    var c := ClassifyVehicle(v);
    NoPlaceholder(v);
    CodeMeaning(c.letters);
    ReviewMeaning(c.letters, c.unresolved, c.ambiguous);
    if v.entry.Some? {
      CategoryIff(v);
      BodyIff(v);
      FuelIff(v);
    }
  }

  lemma SameCodes(v: Vehicle, fuzzy: bool)
    ensures Partial(ClassifyVehicle(v).letters) == Partial(ClassifyVehicle(v.(fuzzy := fuzzy)).letters)
  {
    SameBody(v, fuzzy);
    SameRest(v, fuzzy);
  }

  lemma SameRest(v: Vehicle, fuzzy: bool)
    ensures var w := v.(fuzzy := fuzzy);
      && ResolveFuel(v) == ResolveFuel(w) && VanCoding(v) == VanCoding(w)
      && (VanCoding(v) ==> VanCategory(v) == VanCategory(w))
      && ResolveTransmission(v, ResolveFuel(v).0) == ResolveTransmission(w, ResolveFuel(w).0)
  {
  }

  lemma SameBody(v: Vehicle, fuzzy: bool)
    ensures ResolveBody(v).code == ResolveBody(v.(fuzzy := fuzzy)).code
    ensures ResolveCategory(v).code == ResolveCategory(v.(fuzzy := fuzzy)).code
  {
  }

  lemma SameSettled(v: Vehicle, fuzzy: bool)
    ensures Settled(v) <==> Settled(v.(fuzzy := fuzzy))
  {
  }

  /** A fuzzy match alone never sends a vehicle to review: its confidence cap lies above the threshold. */
  lemma FuzzyChangesNothing(v: Vehicle, fuzzy: bool)
    requires Lettered(v)
    ensures var c, d := ClassifyVehicle(v), ClassifyVehicle(v.(fuzzy := fuzzy));
      && Code(c.letters) == Code(d.letters)
      && (Code(c.letters).Some? ==> ShouldReview(c.letters, c.unresolved,
                                                 c.ambiguous) == ShouldReview(d.letters, d.unresolved, d.ambiguous))
  {
    NoReviewIff(v);
    NoReviewIff(v.(fuzzy := fuzzy));
    SameCodes(v, fuzzy);
    SameSettled(v, fuzzy);
  }
}
