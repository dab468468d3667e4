/** The Selenium side of the desktop application (src/automation.py): the score
    parsers and the outcome cascades of `_extract_score` and `get_user_score`.
    The browser is not modelled: what a selector finds, what an element shows,
    what a regular expression captures and whether a call raises are inputs. */
module Automation {
  import opened Base
  import opened Text

  /** The range the pattern-based parsers accept. */
  const MinScore: int := 100
  const MaxScore: int := 10000000

  predicate InScoreRange(v: int) { MinScore <= v <= MaxScore }

  // ----- parsers -----

  /** `_parse_score`: falsy text gives nothing; otherwise the digits left after
      dropping every other character, when there are 1 to 7 of them. */
  function ParsePyScore(text: string): (r: Option<int>)
    ensures r.Some? <==> 1 <= |KeepDigits(text)| <= 7
    ensures r.Some? ==> r.value == DecimalValue(KeepDigits(text))
    ensures r.Some? ==> 0 <= r.value <= 9999999
  {
    if text == [] then None
    else
      var cleanText := KeepDigits(text);
      if cleanText != [] && |cleanText| <= 7 then
        var score := DecimalValue(cleanText);
        DecimalValueBound(cleanText);
        Pow10Monotone(|cleanText|, 7);
        Pow10Eight();
        if 0 <= score <= 10000000 then Some(score) else None
      else None
  }

  /** `int(capture)` on a captured group; a capture that is not a numeral raises,
      which the callers treat as no result. */
  function CaptureValue(capture: string): (r: Option<int>)
    ensures r.Some? <==> capture != [] && AllDigits(capture)
    ensures r.Some? ==> r.value == DecimalValue(capture)
  {
    if capture != [] && AllDigits(capture) then Some(DecimalValue(capture)) else None
  }

  /** A capture that parses to a value inside the accepted range. */
  predicate Acceptable(capture: string)
  {
    CaptureValue(capture).Some? && InScoreRange(CaptureValue(capture).value)
  }

  /** A pattern whose `re.search` matched with an acceptable first group. */
  predicate Hit(m: Option<string>)
  {
    m.Some? && Acceptable(m.value)
  }

  /** The pattern loop of `_parse_score_from_text`, given the first group of each
      pattern's match (None when it did not match), in pattern order. */
  function FirstPatternScore(matches: seq<Option<string>>): (r: Option<int>)
    ensures r.None? <==> forall k :: 0 <= k < |matches| ==> !Hit(matches[k])
    ensures r.Some? ==> InScoreRange(r.value)
    ensures r.Some? ==> exists k :: 0 <= k < |matches| && Hit(matches[k]) &&
                          CaptureValue(matches[k].value) == Some(r.value) &&
                          forall j :: 0 <= j < k ==> !Hit(matches[j])
  {
    if matches == [] then None
    else if Hit(matches[0]) then CaptureValue(matches[0].value)
    else
      var r := FirstPatternScore(matches[1..]);
      FirstPatternScoreShift(matches, r);
      r
  }

  /** Passing over a first pattern without a hit keeps the first-hit description. */
  lemma FirstPatternScoreShift(matches: seq<Option<string>>, r: Option<int>)
    requires matches != [] && !Hit(matches[0])
    requires r.None? <==> forall k :: 0 <= k < |matches[1..]| ==> !Hit(matches[1..][k])
    requires r.Some? ==> exists k :: 0 <= k < |matches[1..]| && Hit(matches[1..][k]) &&
                           CaptureValue(matches[1..][k].value) == Some(r.value) &&
                           forall j :: 0 <= j < k ==> !Hit(matches[1..][j])
    ensures r.None? <==> forall k :: 0 <= k < |matches| ==> !Hit(matches[k])
    ensures r.Some? ==> exists k :: 0 <= k < |matches| && Hit(matches[k]) &&
                          CaptureValue(matches[k].value) == Some(r.value) &&
                          forall j :: 0 <= j < k ==> !Hit(matches[j])
  {
    assert forall k :: 1 <= k < |matches| ==> matches[k] == matches[1..][k - 1];
    if r.Some? {
      var k :| 0 <= k < |matches[1..]| && Hit(matches[1..][k]) &&
               CaptureValue(matches[1..][k].value) == Some(r.value) &&
               forall j :: 0 <= j < k ==> !Hit(matches[1..][j]);
      assert matches[k + 1] == matches[1..][k];
    }
  }

  /** `_parse_score_from_text`: empty text and text over 100 characters are
      skipped; otherwise the first pattern with an acceptable capture wins. */
  function ParseScoreFromText(text: string, matches: seq<Option<string>>): (r: Option<int>)
    ensures text == [] || |text| > 100 ==> r.None?
    ensures r.Some? ==> InScoreRange(r.value)
    ensures 1 <= |text| <= 100 ==> r == FirstPatternScore(matches)
  {
    if text == [] || |text| > 100 then None else FirstPatternScore(matches)
  }

  /** No capture of the list is acceptable. */
  predicate NoneAcceptable(captures: seq<string>)
  {
    forall k :: 0 <= k < |captures| ==> !Acceptable(captures[k])
  }

  /** The capture loop of `_parse_score_from_html` for one pattern: the first of
      its `findall` captures that is acceptable. */
  function FirstAcceptable(captures: seq<string>): (r: Option<int>)
    ensures r.None? <==> NoneAcceptable(captures)
    ensures r.Some? ==> InScoreRange(r.value)
    ensures r.Some? ==> exists k :: 0 <= k < |captures| && Acceptable(captures[k]) &&
                          r == CaptureValue(captures[k]) &&
                          forall j :: 0 <= j < k ==> !Acceptable(captures[j])
  {
    if captures == [] then None
    else if Acceptable(captures[0]) then CaptureValue(captures[0])
    else
      var r := FirstAcceptable(captures[1..]);
      FirstAcceptableShift(captures, r);
      r
  }

  /** Passing over an unacceptable first capture keeps the first-hit description. */
  lemma FirstAcceptableShift(captures: seq<string>, r: Option<int>)
    requires captures != [] && !Acceptable(captures[0])
    requires r.None? <==> NoneAcceptable(captures[1..])
    requires r.Some? ==> exists k :: 0 <= k < |captures[1..]| && Acceptable(captures[1..][k]) &&
                           r == CaptureValue(captures[1..][k]) &&
                           forall j :: 0 <= j < k ==> !Acceptable(captures[1..][j])
    ensures r.None? <==> NoneAcceptable(captures)
    ensures r.Some? ==> exists k :: 0 <= k < |captures| && Acceptable(captures[k]) &&
                          r == CaptureValue(captures[k]) &&
                          forall j :: 0 <= j < k ==> !Acceptable(captures[j])
  {
    assert forall k :: 1 <= k < |captures| ==> captures[k] == captures[1..][k - 1];
    if r.Some? {
      var k :| 0 <= k < |captures[1..]| && Acceptable(captures[1..][k]) &&
               r == CaptureValue(captures[1..][k]) &&
               forall j :: 0 <= j < k ==> !Acceptable(captures[1..][j]);
      assert captures[k + 1] == captures[1..][k];
    }
  }

  /** `_parse_score_from_html`, given each pattern's `findall` captures in pattern
      order: patterns are tried in turn, each scanning all of its captures. The
      result is the first acceptable capture of the first pattern that has one. */
  function ParseScoreFromHtml(patterns: seq<seq<string>>): (r: Option<int>)
    ensures r.Some? ==> InScoreRange(r.value)
    ensures r.None? <==> forall p :: 0 <= p < |patterns| ==> NoneAcceptable(patterns[p])
    ensures r.Some? ==> FirstSomeIs(patterns, FirstAcceptable, r)
  {
    if patterns == [] then None
    else if FirstAcceptable(patterns[0]).Some? then
      assert patterns[..0] == [];
      FirstAcceptable(patterns[0])
    else
      var r := ParseScoreFromHtml(patterns[1..]);
      assert forall p :: 1 <= p < |patterns| ==> patterns[p] == patterns[1..][p - 1];
      FirstSomeShift(patterns, FirstAcceptable, r);
      r
  }

  /** All captures of all patterns, pattern by pattern. */
  function Flatten(patterns: seq<seq<string>>): seq<string>
  {
    if patterns == [] then [] else patterns[0] + Flatten(patterns[1..])
  }

  lemma {:induction false} FirstAcceptableAppend(a: seq<string>, b: seq<string>)
    ensures FirstAcceptable(a + b) == if FirstAcceptable(a).Some? then FirstAcceptable(a) else FirstAcceptable(b)
  {
    if a != [] {
      assert (a + b)[0] == a[0];
      assert (a + b)[1..] == a[1..] + b;
      FirstAcceptableAppend(a[1..], b);
    } else {
      assert a + b == b;
    }
  }

  /** The nested scan finds the first acceptable capture of the whole capture list:
      the first in pattern order, and within a pattern in document order. */
  lemma {:induction false} ParseScoreFromHtmlFirst(patterns: seq<seq<string>>)
    ensures ParseScoreFromHtml(patterns) == FirstAcceptable(Flatten(patterns))
    ensures ParseScoreFromHtml(patterns).None? <==> NoneAcceptable(Flatten(patterns))
    ensures ParseScoreFromHtml(patterns).Some? ==>
              exists k :: 0 <= k < |Flatten(patterns)| && Acceptable(Flatten(patterns)[k]) &&
                ParseScoreFromHtml(patterns) == CaptureValue(Flatten(patterns)[k]) &&
                forall j :: 0 <= j < k ==> !Acceptable(Flatten(patterns)[j])
  {
    if patterns != [] {
      ParseScoreFromHtmlFirst(patterns[1..]);
      FirstAcceptableAppend(patterns[0], Flatten(patterns[1..]));
    }
  }

  // ----- `_extract_score` -----

  /** An element found by a score selector: not displayed, displayed with a text,
      or raising when inspected. */
  datatype Element = Hidden | Shown(text: string) | Raises

  /** A score selector: `find_elements` raised, or returned these elements. */
  datatype Selector = FindRaises | Found(elements: seq<Element>)

  /** An element of the text scan: its stripped text comes with the first groups
      the text patterns capture in it. */
  datatype TextElement = TextHidden | TextShown(text: string, matches: seq<Option<string>>) | TextRaises

  /** An element strategy 1 passes over: not displayed, or its text does not parse. */
  predicate Skipped(e: Element)
  {
    e.Hidden? || (e.Shown? && ParsePyScore(e.text).None?)
  }

  /** An element strategy 1 stops at with a score. */
  predicate ElementHit(e: Element)
  {
    e.Shown? && ParsePyScore(e.text).Some?
  }

  /** Strategy 1 inside one selector: the first displayed element whose text
      parses; an element that raises ends the selector. */
  function ElementsScore(elements: seq<Element>): (r: Option<int>)
    ensures r.Some? ==> 0 <= r.value <= 9999999
    ensures r.Some? ==> exists k :: 0 <= k < |elements| && ElementHit(elements[k]) &&
                          r == ParsePyScore(elements[k].text) &&
                          forall j :: 0 <= j < k ==> Skipped(elements[j])
    ensures r.None? ==> forall k :: 0 <= k < |elements| && ElementHit(elements[k]) ==>
                          exists j :: 0 <= j < k && elements[j].Raises?
  {
    if elements == [] then None
    else
      var rest := ElementsScore(elements[1..]);
      assert forall k :: 1 <= k < |elements| ==> elements[k] == elements[1..][k - 1];
      match elements[0]
      case Raises => None
      case Hidden =>
        ElementsScoreShift(elements, rest);
        rest
      case Shown(text) =>
        if ParsePyScore(text).Some? then ParsePyScore(text)
        else
          ElementsScoreShift(elements, rest);
          rest
  }

  /** Passing over a skipped first element keeps the first-hit description. */
  lemma ElementsScoreShift(elements: seq<Element>, rest: Option<int>)
    requires elements != [] && Skipped(elements[0])
    requires rest.Some? ==> exists k :: 0 <= k < |elements[1..]| && ElementHit(elements[1..][k]) &&
                              rest == ParsePyScore(elements[1..][k].text) &&
                              forall j :: 0 <= j < k ==> Skipped(elements[1..][j])
    requires rest.None? ==> forall k :: 0 <= k < |elements[1..]| && ElementHit(elements[1..][k]) ==>
                              exists j :: 0 <= j < k && elements[1..][j].Raises?
    ensures rest.Some? ==> exists k :: 0 <= k < |elements| && ElementHit(elements[k]) &&
                             rest == ParsePyScore(elements[k].text) &&
                             forall j :: 0 <= j < k ==> Skipped(elements[j])
    ensures rest.None? ==> forall k :: 0 <= k < |elements| && ElementHit(elements[k]) ==>
                             exists j :: 0 <= j < k && elements[j].Raises?
  {
    if rest.Some? {
      var k :| 0 <= k < |elements[1..]| && ElementHit(elements[1..][k]) &&
               rest == ParsePyScore(elements[1..][k].text) &&
               forall j :: 0 <= j < k ==> Skipped(elements[1..][j]);
      assert elements[k + 1] == elements[1..][k];
      assert forall j :: 1 <= j < k + 1 ==> elements[j] == elements[1..][j - 1];
    } else {
      forall k | 0 <= k < |elements| && ElementHit(elements[k])
        ensures exists j :: 0 <= j < k && elements[j].Raises?
      {
        assert k != 0;
        assert elements[1..][k - 1] == elements[k];
        var j :| 0 <= j < k - 1 && elements[1..][j].Raises?;
        assert elements[j + 1] == elements[1..][j];
      }
    }
  }

  function SelectorScore(selector: Selector): (r: Option<int>)
    ensures r.Some? ==> 0 <= r.value <= 9999999
  {
    match selector
    case FindRaises => None
    case Found(elements) => ElementsScore(elements)
  }

  /** Strategy 1: the selectors in order; the first selector with a score wins. */
  function SelectorsScore(selectors: seq<Selector>): (r: Option<int>)
    ensures r.Some? ==> 0 <= r.value <= 9999999
    ensures r.None? <==> NoneOn(selectors, SelectorScore)
    ensures r.Some? ==> FirstSomeIs(selectors, SelectorScore, r)
  {
    if selectors == [] then None
    else if SelectorScore(selectors[0]).Some? then
      assert selectors[..0] == [];
      SelectorScore(selectors[0])
    else
      var r := SelectorsScore(selectors[1..]);
      FirstSomeShift(selectors, SelectorScore, r);
      r
  }

  /** What strategy 2 makes of one text element: the pattern parser on its
      stripped text when it is displayed, nothing otherwise. */
  function TextElementScore(e: TextElement): (r: Option<int>)
    ensures r.Some? ==> e.TextShown? && r == ParseScoreFromText(Trim(e.text), e.matches)
    ensures r.None? <==> !e.TextShown? || ParseScoreFromText(Trim(e.text), e.matches).None?
    ensures r.Some? ==> InScoreRange(r.value)
  {
    match e
    case TextShown(text, matches) => ParseScoreFromText(Trim(text), matches)
    case _ => None
  }

  /** Strategy 2: the first displayed text that the pattern parser accepts; an
      element that raises is skipped. */
  function TextScore(elements: seq<TextElement>): (r: Option<int>)
    ensures r.Some? ==> InScoreRange(r.value)
    ensures r.None? <==> NoneOn(elements, TextElementScore)
    ensures r.Some? ==> FirstSomeIs(elements, TextElementScore, r)
  {
    if elements == [] then None
    else
      var s := TextElementScore(elements[0]);
      if s.Some? then
        assert elements[..0] == [];
        s
      else
        var r := TextScore(elements[1..]);
        FirstSomeShift(elements, TextElementScore, r);
        r
  }

  /** The three strategies in order: the first result wins. */
  function Cascade(first: Option<int>, second: Option<int>, third: Option<int>): (r: Option<int>)
    ensures r.None? <==> first.None? && second.None? && third.None?
    ensures first.Some? ==> r == first
    ensures first.None? && second.Some? ==> r == second
    ensures first.None? && second.None? ==> r == third
  {
    if first.Some? then first else if second.Some? then second else third
  }

  /** What `_extract_score` returns: strategy 1 over the selectors, strategy 2 over
      the text elements unless their lookup raised (None), strategy 3 over the page
      source's captures unless reading it raised (None). */
  function ExtractScoreOf(selectors: seq<Selector>, textElements: Option<seq<TextElement>>,
                          pageSource: Option<seq<seq<string>>>): (r: Option<int>)
    ensures r.Some? ==> 0 <= r.value <= MaxScore
  {
    Cascade(SelectorsScore(selectors),
            if textElements.Some? then TextScore(textElements.value) else None,
            if pageSource.Some? then ParseScoreFromHtml(pageSource.value) else None)
  }

  /** The element loop of strategy 1 for one selector: the first displayed element
      whose text parses; an element that raises ends the selector's `try`. */
  method ScanElements(elements: seq<Element>) returns (score: Option<int>)
    ensures score == ElementsScore(elements)
  {
    var j := 0;
    while j < |elements|
      invariant 0 <= j <= |elements|
      invariant ElementsScore(elements) == ElementsScore(elements[j..])
    {
      assert elements[j..][0] == elements[j] && elements[j..][1..] == elements[j + 1..];
      match elements[j] {
        case Raises =>
          return None;
        case Hidden =>
        case Shown(text) =>
          var parsed := ParsePyScore(text);
          if parsed.Some? {
            return parsed;
          }
      }
      j := j + 1;
    }
    return None;
  }

  /** The selector loop of strategy 1. */
  method ScanSelectors(selectors: seq<Selector>) returns (score: Option<int>)
    ensures score == SelectorsScore(selectors)
  {
    var i := 0;
    while i < |selectors|
      invariant 0 <= i <= |selectors|
      invariant SelectorsScore(selectors) == SelectorsScore(selectors[i..])
    {
      assert selectors[i..][0] == selectors[i] && selectors[i..][1..] == selectors[i + 1..];
      match selectors[i] {
        case FindRaises =>
        case Found(elements) =>
          var parsed := ScanElements(elements);
          if parsed.Some? {
            return parsed;
          }
      }
      i := i + 1;
    }
    return None;
  }

  /** The element loop of strategy 2: an element that raises is skipped. */
  method ScanTexts(elements: seq<TextElement>) returns (score: Option<int>)
    ensures score == TextScore(elements)
  {
    var j := 0;
    while j < |elements|
      invariant 0 <= j <= |elements|
      invariant TextScore(elements) == TextScore(elements[j..])
    {
      assert elements[j..][0] == elements[j] && elements[j..][1..] == elements[j + 1..];
      match elements[j] {
        case TextRaises =>
        case TextHidden =>
        case TextShown(text, matches) =>
          var parsed := ParseScoreFromText(Trim(text), matches);
          if parsed.Some? {
            return parsed;
          }
      }
      j := j + 1;
    }
    return None;
  }

  /** `_extract_score`: the three strategies with their early returns. */
  method ExtractScore(selectors: seq<Selector>, textElements: Option<seq<TextElement>>,
                      pageSource: Option<seq<seq<string>>>) returns (score: Option<int>)
    ensures score == ExtractScoreOf(selectors, textElements, pageSource)
  {
    // Strategy 1: the score selectors
    score := ScanSelectors(selectors);
    if score.Some? {
      return;
    }
    // Strategy 2: every text element
    if textElements.Some? {
      score := ScanTexts(textElements.value);
      if score.Some? {
        return;
      }
    }
    // Strategy 3: the page source
    if pageSource.Some? {
      var parsed := ParseScoreFromHtml(pageSource.value);
      if parsed.Some? {
        return parsed;
      }
    }
    return None;
  }

  // ----- `get_user_score` -----

  /** The outcome of one browser step: its value, or an exception. */
  datatype Step<T> = Done(value: T) | Threw

  /** The dictionary `get_user_score` returns. */
  datatype ScoreRecord = ScoreRecord(score: int, hasNewSnap: bool, timestamp: int)

  /** `get_user_score`: search, open the profile, extract the score, check for a
      new snap and go back, in that order; a failed search or profile, a missing
      score or any exception gives None, and no exception escapes. `goBackRaises`
      says whether `_go_back_to_main` raised. */
  method GetUserScore(search: Step<bool>, open: Step<bool>, extract: Step<Option<int>>,
                      newSnap: Step<bool>, goBackRaises: bool, now: int)
    returns (result: Option<ScoreRecord>)
    ensures result.Some? <==>
      && search == Done(true) && open == Done(true)
      && extract.Done? && extract.value.Some?
      && newSnap.Done? && !goBackRaises
    ensures result.Some? ==> result.value == ScoreRecord(extract.value.value, newSnap.value, now)
  {
    if search.Threw? || !search.value {
      return None;
    }
    if open.Threw? || !open.value {
      return None;
    }
    if extract.Threw? {
      return None;
    }
    var score := extract.value;
    if newSnap.Threw? {
      return None;
    }
    var hasNewSnap := newSnap.value;
    if goBackRaises {
      return None;
    }
    if score.Some? {
      return Some(ScoreRecord(score.value, hasNewSnap, now));
    }
    return None;
  }
}
