/** Scraping recipes and their stored form: serialization drops absent extractor values, deserialization
    fills defaults and fails on a missing required key. */
module RecipeDocument {
  import opened Comprehension

  /** A leaf value; Absent is Python's None, JSON's null. The record types are dynamic in the source, so
      every leaf may hold any value. */
  datatype Value = Absent | Text(text: string) | Flag(flag: bool) | Texts(texts: seq<string>)

  /** Keys of the stored objects; the recipe, a form field and an extractor use them independently. */
  datatype Key =
    | ProviderKey | DiscoveredAt | Url | CookiesStrategy | SubmitSelector | SubmitSelectorType | CardSource
    | PriceStrategy | RefineUrl | RefineStrategy | RefineOpenSelector | RefineOpenSelectorType
    | CookieAcceptSelector | CookieAcceptSelectorType
    | Selector | SelectorType | ElementKind | WidgetType | Strategy | IsSearchable | OptionsContainer
    | OptionItem | MatchMode | AcceptsTyping | DateFormat | CalendarContainer | NextMonth | PrevMonth
    | DayCell | MonthYearLabel | IsRangeCalendar
    | FieldName | Extraction | Keywords | AutoKeywords | ManualKeywords

  type Object = map<Key, Value>

  /** RecipeField */
  datatype FormField = FormField(
    selector: Value, selectorType: Value, elementKind: Value, widgetType: Value, strategy: Value,
    isSearchable: Value, optionsContainer: Value, optionItem: Value, matchMode: Value, acceptsTyping: Value,
    dateFormat: Value, calendarContainer: Value, nextMonth: Value, prevMonth: Value, dayCell: Value,
    monthYearLabel: Value, isRangeCalendar: Value)

  /** RecipeFieldExtractor */
  datatype Extractor = Extractor(
    field: Value, selector: Value, extraction: Value, keywords: Value, autoKeywords: Value, manualKeywords: Value)

  datatype Recipe = Recipe(
    providerKey: Value, discoveredAt: Value, url: Value, cookiesStrategy: Value,
    formFields: map<string, FormField>, submitSelector: Value, submitSelectorType: Value, cardSource: Value,
    fieldExtractors: seq<Extractor>, priceStrategy: Value, refineUrl: Value, refineStrategy: Value,
    refineOpenSelector: Value, refineOpenSelectorType: Value, cookieAcceptSelector: Value,
    cookieAcceptSelectorType: Value)

  /** The stored JSON; either of the two collections may be missing. */
  datatype Document = Document(
    attributes: Object, formFields: Option<map<string, Object>>, fieldExtractors: Option<seq<Object>>)

  datatype Error = MissingKey(key: Key)

  // ---------------------------------------------------------------- writing

  function FieldToObject(f: FormField): Object {
    map[Selector := f.selector, SelectorType := f.selectorType, ElementKind := f.elementKind,
        WidgetType := f.widgetType, Strategy := f.strategy, IsSearchable := f.isSearchable,
        OptionsContainer := f.optionsContainer, OptionItem := f.optionItem, MatchMode := f.matchMode,
        AcceptsTyping := f.acceptsTyping, DateFormat := f.dateFormat, CalendarContainer := f.calendarContainer,
        NextMonth := f.nextMonth, PrevMonth := f.prevMonth, DayCell := f.dayCell,
        MonthYearLabel := f.monthYearLabel, IsRangeCalendar := f.isRangeCalendar]
  }

  /** {k: v for k, v in ... if v is not None} */
  function WithoutAbsent(o: Object): Object {
    map k | k in o && o[k] != Absent :: o[k]
  }

  function ExtractorToObject(e: Extractor): Object {
    WithoutAbsent(map[FieldName := e.field, Selector := e.selector, Extraction := e.extraction,
                      Keywords := e.keywords, AutoKeywords := e.autoKeywords, ManualKeywords := e.manualKeywords])
  }

  function Attributes(r: Recipe): Object {
    map[ProviderKey := r.providerKey, DiscoveredAt := r.discoveredAt, Url := r.url,
        CookiesStrategy := r.cookiesStrategy, SubmitSelector := r.submitSelector,
        SubmitSelectorType := r.submitSelectorType, CardSource := r.cardSource,
        PriceStrategy := r.priceStrategy, RefineUrl := r.refineUrl, RefineStrategy := r.refineStrategy,
        RefineOpenSelector := r.refineOpenSelector, RefineOpenSelectorType := r.refineOpenSelectorType,
        CookieAcceptSelector := r.cookieAcceptSelector, CookieAcceptSelectorType := r.cookieAcceptSelectorType]
  }

  /** {name: f(x) for name, x in m.items()} */
  function MapValues<A, B>(m: map<string, A>, f: A -> B): map<string, B> {
    map name | name in m :: f(m[name])
  }

  /** recipe_to_dict */
  function ToDocument(r: Recipe): Document {
    Document(Attributes(r),
      Some(MapValues(r.formFields, FieldToObject)),
      Some(seq(|r.fieldExtractors|,
               i requires 0 <= i < |r.fieldExtractors| => ExtractorToObject(r.fieldExtractors[i]))))
  }

  // ---------------------------------------------------------------- reading

  function Get(o: Object, k: Key, default: Value): Value {
    if k in o then o[k] else default
  }

  /** Read only where the required selector is present. */
  function FieldFromObject(o: Object): FormField {
    FormField(Get(o, Selector, Absent), Get(o, SelectorType, Text("css")), Get(o, ElementKind, Text("input")),
      Get(o, WidgetType, Text("unknown")), Get(o, Strategy, Absent), Get(o, IsSearchable, Absent),
      Get(o, OptionsContainer, Absent), Get(o, OptionItem, Absent), Get(o, MatchMode, Absent),
      Get(o, AcceptsTyping, Absent), Get(o, DateFormat, Absent), Get(o, CalendarContainer, Absent),
      Get(o, NextMonth, Absent), Get(o, PrevMonth, Absent), Get(o, DayCell, Absent),
      Get(o, MonthYearLabel, Absent), Get(o, IsRangeCalendar, Absent))
  }

  /** Read only where the required field name is present. */
  function ExtractorFromObject(o: Object): Extractor {
    Extractor(Get(o, FieldName, Absent), Get(o, Selector, Absent), Get(o, Extraction, Text("text")),
      Get(o, Keywords, Absent), Get(o, AutoKeywords, Absent), Get(o, ManualKeywords, Absent))
  }

  function StoredFields(d: Document): map<string, Object> {
    if d.formFields.Some? then d.formFields.value else map[]
  }

  function StoredExtractors(d: Document): seq<Object> {
    if d.fieldExtractors.Some? then d.fieldExtractors.value else []
  }

  predicate FieldsReadable(d: Document) {
    forall name :: name in StoredFields(d) ==> Selector in StoredFields(d)[name]
  }

  predicate ExtractorsReadable(d: Document) {
    forall o :: o in StoredExtractors(d) ==> FieldName in o
  }

  function ReadExtractors(stored: seq<Object>): seq<Extractor> {
    seq(|stored|, i requires 0 <= i < |stored| => ExtractorFromObject(stored[i]))
  }

  /** The recipe of its attributes and its two collections. */
  function Assemble(a: Object, fields: map<string, FormField>, extractors: seq<Extractor>): Recipe {
    Recipe(
      Get(a, ProviderKey, Absent), Get(a, DiscoveredAt, Text("")), Get(a, Url, Absent),
      Get(a, CookiesStrategy, Text("adaptive_poll_heuristic")), fields, Get(a, SubmitSelector, Absent),
      Get(a, SubmitSelectorType, Text("css")), Get(a, CardSource, Text("mark_valid_cards")), extractors,
      Get(a, PriceStrategy, Text("")), Get(a, RefineUrl, Absent), Get(a, RefineStrategy, Text("none")),
      Get(a, RefineOpenSelector, Absent), Get(a, RefineOpenSelectorType, Text("css")),
      Get(a, CookieAcceptSelector, Absent), Get(a, CookieAcceptSelectorType, Text("css")))
  }

  /** recipe_from_dict: the first missing required key is an error, in the order the source reads them. */
  function FromDocument(d: Document): Result<Recipe, Error> {
    var a := d.attributes;
    if !FieldsReadable(d) then Err(MissingKey(Selector))
    else if !ExtractorsReadable(d) then Err(MissingKey(FieldName))
    else if ProviderKey !in a then Err(MissingKey(ProviderKey))
    else if Url !in a then Err(MissingKey(Url))
    else if SubmitSelector !in a then Err(MissingKey(SubmitSelector))
    else Ok(Assemble(a, MapValues(StoredFields(d), FieldFromObject), ReadExtractors(StoredExtractors(d))))
  }

  // ---------------------------------------------------------------- round trip

  lemma FieldRoundTrip(f: FormField)
    ensures Selector in FieldToObject(f) && FieldFromObject(FieldToObject(f)) == f
  {
  }

  /** An extractor is read back exactly unless its field name is missing, which cannot be read at all, or
      its extraction is missing, which is read back as plain text. */
  lemma ExtractorRoundTrip(e: Extractor)
    ensures FieldName in ExtractorToObject(e) <==> e.field != Absent
    ensures e.field != Absent ==>
      ExtractorFromObject(ExtractorToObject(e)) == if e.extraction == Absent then e.(extraction := Text("text")) else e
  {
  }

  /** What the declared types promise of an extractor: both are strings. */
  predicate Storable(e: Extractor) {
    e.field != Absent && e.extraction != Absent
  }

  /** The recipe that comes back: a missing extraction becomes the default. */
  function Normalized(r: Recipe): Recipe {
    r.(fieldExtractors := seq(|r.fieldExtractors|, i requires 0 <= i < |r.fieldExtractors| =>
      if r.fieldExtractors[i].extraction == Absent then r.fieldExtractors[i].(extraction := Text("text"))
        else r.fieldExtractors[i]))
  }

  lemma MapValuesInverse<A, B>(m: map<string, A>, f: A -> B, g: B -> A)
    requires forall name :: name in m ==> g(f(m[name])) == m[name]
    ensures MapValues(MapValues(m, f), g) == m
  {
  }

  lemma FormFieldsRoundTrip(r: Recipe)
    ensures FieldsReadable(ToDocument(r))
    ensures MapValues(StoredFields(ToDocument(r)), FieldFromObject) == r.formFields
  {
    forall name | name in r.formFields
      ensures Selector in FieldToObject(r.formFields[name])
      ensures FieldFromObject(FieldToObject(r.formFields[name])) == r.formFields[name]
    {
      FieldRoundTrip(r.formFields[name]);
    }
    MapValuesInverse(r.formFields, FieldToObject, FieldFromObject);
  }

  lemma ExtractorsRoundTrip(r: Recipe)
    ensures ExtractorsReadable(ToDocument(r)) <==> forall e :: e in r.fieldExtractors ==> e.field != Absent
    ensures ExtractorsReadable(ToDocument(r)) ==>
      ReadExtractors(StoredExtractors(ToDocument(r))) == Normalized(r).fieldExtractors
  {
    var stored := StoredExtractors(ToDocument(r));
    forall i | 0 <= i < |stored|
      ensures stored[i] == ExtractorToObject(r.fieldExtractors[i]) && stored[i] in stored
      ensures FieldName in stored[i] <==> r.fieldExtractors[i].field != Absent
      ensures FieldName in stored[i] ==> ExtractorFromObject(stored[i]) == Normalized(r).fieldExtractors[i]
    {
      ExtractorRoundTrip(r.fieldExtractors[i]);
    }
  }

  lemma AttributesRoundTrip(r: Recipe, fields: map<string, FormField>, extractors: seq<Extractor>)
    ensures Assemble(Attributes(r), fields, extractors) == r.(formFields := fields, fieldExtractors := extractors)
  {
  }

  /** What reading a written recipe gives, for every recipe. */
  lemma ReadBack(r: Recipe)
    ensures FromDocument(ToDocument(r)) ==
      if forall e :: e in r.fieldExtractors ==> e.field != Absent then Ok(Normalized(r)) else Err(MissingKey(FieldName))
  {
    FormFieldsRoundTrip(r);
    ExtractorsRoundTrip(r);
    AttributesRoundTrip(r, r.formFields, Normalized(r).fieldExtractors);
  }

  /** Nothing was missing exactly when every extraction is there. */
  lemma NormalizedIff(r: Recipe)
    ensures Normalized(r) == r <==> forall e :: e in r.fieldExtractors ==> e.extraction != Absent
  {
    var own, read := r.fieldExtractors, Normalized(r).fieldExtractors;
    forall i | 0 <= i < |own| ensures read[i] == own[i] <==> own[i].extraction != Absent {
      assert own[i] in own;
    }
    if forall e :: e in own ==> e.extraction != Absent {
      forall i | 0 <= i < |own| ensures read[i] == own[i] { assert own[i] in own; }
      assert read == own;
    }
  }

  /** The stored form gives the recipe back exactly when every extractor has a field and an extraction. */
  lemma RoundTripIff(r: Recipe)
    ensures FromDocument(ToDocument(r)) == Ok(r) <==> forall e :: e in r.fieldExtractors ==> Storable(e)
  {
    ReadBack(r);
    NormalizedIff(r);
  }

  /** A recipe with one extractor, whose extraction the classifying model answered with an explicit null. */
  function NullExtraction(): Recipe {
    var none := Absent;
    Recipe(Text("p"), Text(""), Text("u"), Text("adaptive_poll_heuristic"), map[], Text("#go"), Text("css"),
      Text("mark_valid_cards"), [Extractor(Text("model"), Text(".name"), none, none, none, none)], Text(""), none,
      Text("none"), none, Text("css"), none, Text("css"))
  }

  /** It is used as it is until it is stored, and comes back as plain text extraction. */
  lemma NullExtractionIsLost()
    ensures var r := NullExtraction();
      && FromDocument(ToDocument(r)) == Ok(Normalized(r)) && Normalized(r) != r
      && Normalized(r).fieldExtractors == [r.fieldExtractors[0].(extraction := Text("text"))]
  {
    var r := NullExtraction();
    assert r.fieldExtractors[0] in r.fieldExtractors;
    ReadBack(r);
    NormalizedIff(r);
  }

  /** Writing what was read is stable: whatever a stored document loads to is loaded again after a save,
      unless the document spells out a null field or extraction. */
  lemma LoadIsStable(d: Document)
    requires FromDocument(d).Ok?
    requires forall o :: o in StoredExtractors(d) ==>
      Get(o, FieldName, Absent) != Absent && Get(o, Extraction, Text("text")) != Absent
    ensures FromDocument(ToDocument(FromDocument(d).value)) == FromDocument(d)
  {
    var r := FromDocument(d).value;
    forall e | e in r.fieldExtractors ensures Storable(e) {
      var i :| 0 <= i < |r.fieldExtractors| && r.fieldExtractors[i] == e;
      assert StoredExtractors(d)[i] in StoredExtractors(d);
    }
    RoundTripIff(r);
  }
}
