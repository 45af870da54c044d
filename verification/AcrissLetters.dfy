/** The four ACRISS letters of a classification and the aggregates computed from them. */
module AcrissLetters {
  import opened Comprehension

  datatype Source = FromScrape | FromOverride | FromDictionary | FromName | Heuristic | Fallback

  datatype Letter = Letter(code: Option<char>, confidence: real, source: Source)

  datatype Letters = Letters(category: Letter, body: Letter, transmission: Letter, fuel: Letter)

  const CATEGORIES := "MNEHCDIJSRFGPULWOX"
  const BODIES := "BCDWVLSTFJXPQZEMRHYNGK"
  const TRANSMISSIONS := "MNCABD"
  const FUELS := "RNDQHIECLSABMFVZUX"

  function Render(l: Letter): char {
    if l.code.Some? then l.code.value else '?'
  }

  /** partial_acriss: unknown letters rendered as '?' */
  function Partial(l: Letters): string {
    [Render(l.category), Render(l.body), Render(l.transmission), Render(l.fuel)]
  }

  /** acriss: the code when nothing is unknown */
  function Code(l: Letters): Option<string> {
    if '?' in Partial(l) then None else Some(Partial(l))
  }

  function Min(x: real, y: real): real { if x <= y then x else y }

  function MinConfidence(l: Letters): real {
    Min(Min(l.category.confidence, l.body.confidence), Min(l.transmission.confidence, l.fuel.confidence))
  }

  const TRUSTED := 0.85

  /** The review rule shared by the classifier and by every later refresh. */
  predicate ShouldReview(l: Letters, unresolved: bool, ambiguous: bool) {
    || MinConfidence(l) < TRUSTED
    || l.category.confidence < TRUSTED
    || l.body.confidence < TRUSTED
    || unresolved
    || (ambiguous && l.fuel.confidence < TRUSTED)
  }

  predicate AllTrusted(l: Letters) {
    && l.category.confidence >= TRUSTED && l.body.confidence >= TRUSTED
    && l.transmission.confidence >= TRUSTED && l.fuel.confidence >= TRUSTED
  }

  /** Not reviewing means every letter is trusted and the model is known: the minimum decides alone. */
  lemma ReviewMeaning(l: Letters, unresolved: bool, ambiguous: bool)
    ensures !ShouldReview(l, unresolved, ambiguous) <==> AllTrusted(l) && !unresolved
    ensures AllTrusted(l) <==>
      0.85 <= l.category.confidence && 0.85 <= l.body.confidence && 0.85 <= l.transmission.confidence &&
        0.85 <= l.fuel.confidence
  {
  }

  lemma CodeMeaning(l: Letters)
    requires l.category.code != Some('?') && l.body.code != Some('?') && l.transmission.code != Some('?')
    requires l.fuel.code != Some('?')
    ensures Code(l).Some? <==>
      l.category.code.Some? && l.body.code.Some? && l.transmission.code.Some? && l.fuel.code.Some?
    ensures Code(l).Some? ==>
      Code(l).value == [l.category.code.value, l.body.code.value, l.transmission.code.value, l.fuel.code.value]
  {
    var p := Partial(l);
    if '?' in p {
      var i :| 0 <= i < |p| && p[i] == '?';
      assert i == 0 || i == 1 || i == 2 || i == 3;
    } else {
      assert p[0] in p && p[1] in p && p[2] in p && p[3] in p;
    }
  }
}
