/** The content script's tracker (chrome-extension/js/content.js): the list of
    tracked usernames, the per-user history store with its alerts, the score-text
    parsers and the message dispatch. */
module Content {
  import opened Base
  import opened Text
  import opened Sorting
  import opened ExtensionData

  // ----- score-text parsing -----

  /** `parseScore`: falsy text gives nothing; otherwise the digits left after
      dropping every other character are accepted when there are 3 to 8 of them. */
  function ParseScore(text: string): (r: Option<int>)
    ensures r.Some? <==> 3 <= |KeepDigits(text)| <= 8
    ensures r.Some? ==> r.value == DecimalValue(KeepDigits(text))
    ensures r.Some? ==> 0 <= r.value < 100000000
  {
    if text == "" then None
    else
      var cleaned := KeepDigits(text);
      if 3 <= |cleaned| <= 8 then
        DecimalValueBound(cleaned);
        Pow10Monotone(|cleaned|, 8);
        Pow10Eight();
        Some(DecimalValue(cleaned))
      else None
  }

  /** The number of leading digits of `s`, counting at most `max` of them. */
  function LeadingDigits(s: string, max: nat): (n: nat)
    ensures n <= max && n <= |s|
    ensures AllDigits(s[..n])
    ensures n < max && n < |s| ==> !IsDigit(s[n])
  {
    if s == [] || max == 0 || !IsDigit(s[0]) then 0
    else
      var n := 1 + LeadingDigits(s[1..], max - 1);
      assert s[..n] == [s[0]] + s[1..][..n - 1];
      n
  }

  /** The matches of the global, greedy pattern `\d{3,8}`, left to right: at each
      position take up to 8 digits if there are at least 3, else move on by one. */
  function DigitMatches(s: string): (r: seq<string>)
    ensures forall i :: 0 <= i < |r| ==> 3 <= |r[i]| <= 8 && AllDigits(r[i])
    decreases |s|
  {
    if s == [] then []
    else
      var n := LeadingDigits(s, 8);
      if n >= 3 then [s[..n]] + DigitMatches(s[n..]) else DigitMatches(s[1..])
  }

  /** Where each match of `DigitMatches(s)` begins in `s`. */
  ghost function MatchStarts(s: string): seq<int>
    decreases |s|
  {
    if s == [] then []
    else
      var n := LeadingDigits(s, 8);
      if n >= 3 then [0] + Shift(MatchStarts(s[n..]), n) else Shift(MatchStarts(s[1..]), 1)
  }

  ghost function Shift(xs: seq<int>, d: int): (r: seq<int>)
    ensures |r| == |xs| && forall i :: 0 <= i < |xs| ==> r[i] == xs[i] + d
  {
    seq(|xs|, i requires 0 <= i < |xs| => xs[i] + d)
  }

  /** `m` occurs in `s` at position `p`. */
  predicate SliceAt(s: string, p: int, m: string)
  {
    0 <= p && p + |m| <= |s| && s[p..p + |m|] == m
  }

  /** The strings `ms` occur in `s` at the positions `st`, left to right and
      without overlapping. */
  predicate SlicesAt(s: string, ms: seq<string>, st: seq<int>)
  {
    && |st| == |ms|
    && (forall k :: 0 <= k < |ms| ==> SliceAt(s, st[k], ms[k]))
    && (forall k :: 0 <= k < |ms| - 1 ==> st[k] + |ms[k]| <= st[k + 1])
  }

  /** Slices of a suffix are slices of the whole text, further right. */
  lemma SlicesAtShift(s: string, d: nat, ms: seq<string>, st: seq<int>)
    requires d <= |s| && SlicesAt(s[d..], ms, st)
    ensures SlicesAt(s, ms, Shift(st, d))
    ensures forall k :: 0 <= k < |st| ==> Shift(st, d)[k] >= d
  {
    forall k | 0 <= k < |ms|
      ensures SliceAt(s, Shift(st, d)[k], ms[k])
    {
      assert s[d..][st[k]..st[k] + |ms[k]|] == s[st[k] + d..st[k] + d + |ms[k]|];
    }
  }

  /** A slice at the front followed by slices further right. */
  lemma SlicesAtCons(s: string, m0: string, ms: seq<string>, st: seq<int>)
    requires SliceAt(s, 0, m0) && SlicesAt(s, ms, st)
    requires forall k :: 0 <= k < |st| ==> st[k] >= |m0|
    ensures SlicesAt(s, [m0] + ms, [0] + st)
  {
    assert forall k :: 1 <= k < |ms| + 1 ==> ([m0] + ms)[k] == ms[k - 1] && ([0] + st)[k] == st[k - 1];
  }

  /** Every match is the slice of the text at its start position, and the matches
      follow each other left to right without overlapping. */
  lemma {:induction false} DigitMatchesSlices(s: string)
    ensures SlicesAt(s, DigitMatches(s), MatchStarts(s))
    decreases |s|
  {
    if s != [] {
      var n := LeadingDigits(s, 8);
      if n >= 3 {
        DigitMatchesSlices(s[n..]);
        SlicesAtShift(s, n, DigitMatches(s[n..]), MatchStarts(s[n..]));
        assert SliceAt(s, 0, s[..n]);
        SlicesAtCons(s, s[..n], DigitMatches(s[n..]), Shift(MatchStarts(s[n..]), n));
      } else {
        DigitMatchesSlices(s[1..]);
        SlicesAtShift(s, 1, DigitMatches(s[1..]), MatchStarts(s[1..]));
      }
    }
  }

  /** Three ASCII digits in a row start at position `p` of `s`. */
  predicate ThreeDigitsAt(s: string, p: int)
  {
    0 <= p && p + 3 <= |s| && IsDigit(s[p]) && IsDigit(s[p + 1]) && IsDigit(s[p + 2])
  }

  /** The pattern finds nothing exactly when the text has no three digits in a row. */
  lemma {:induction false} DigitMatchesEmpty(s: string)
    ensures DigitMatches(s) == [] <==> forall p :: !ThreeDigitsAt(s, p)
    decreases |s|
  {
    if s != [] {
      var n := LeadingDigits(s, 8);
      if n >= 3 {
        assert s[..n][0] == s[0] && s[..n][1] == s[1] && s[..n][2] == s[2];
        assert ThreeDigitsAt(s, 0);
      } else {
        assert !ThreeDigitsAt(s, 0);
        DigitMatchesEmpty(s[1..]);
        forall p ensures ThreeDigitsAt(s, p) <==> p >= 1 && ThreeDigitsAt(s[1..], p - 1) {
          if p >= 1 && p + 3 <= |s| {
            assert s[1..][p - 1] == s[p] && s[1..][p] == s[p + 1] && s[1..][p + 1] == s[p + 2];
          }
        }
        if forall p :: !ThreeDigitsAt(s[1..], p) {
          forall p ensures !ThreeDigitsAt(s, p) {
            if p >= 1 { assert !ThreeDigitsAt(s[1..], p - 1); }
          }
        } else {
          var p :| ThreeDigitsAt(s[1..], p);
          assert ThreeDigitsAt(s, p + 1);
        }
      }
    }
  }

  /** A digit at position `q` of `s`. */
  predicate DigitAt(s: string, q: int)
  {
    0 <= q < |s| && IsDigit(s[q])
  }

  /** Where the scan for match `k` begins: `from` for the first match, else the
      end of match `k - 1`. */
  function GapStart(ms: seq<string>, st: seq<int>, k: int, from: int): int
    requires |st| == |ms| && 0 <= k <= |ms|
  {
    if k == 0 then from else st[k - 1] + |ms[k - 1]|
  }

  /** Each match stops at 8 digits or before a position that holds no digit. */
  predicate Maximal(s: string, ms: seq<string>, st: seq<int>)
    requires |st| == |ms|
  {
    forall k :: 0 <= k < |ms| ==> |ms[k]| == 8 || !DigitAt(s, st[k] + |ms[k]|)
  }

  /** No three digits in a row begin in the gap before a match. */
  predicate GapsClear(s: string, ms: seq<string>, st: seq<int>, from: int)
    requires |st| == |ms|
  {
    forall k, p :: 0 <= k < |ms| && GapStart(ms, st, k, from) <= p < st[k] ==> !ThreeDigitsAt(s, p)
  }

  /** No three digits in a row begin after the last match. */
  predicate TailClear(s: string, ms: seq<string>, st: seq<int>, from: int)
    requires |st| == |ms|
  {
    forall p :: GapStart(ms, st, |ms|, from) <= p < |s| ==> !ThreeDigitsAt(s, p)
  }

  /** The scan from `from` on is greedy and skips nothing: each match is maximal,
      and no three digits in a row begin in a gap before a match or after the
      last one. */
  predicate Greedy(s: string, ms: seq<string>, st: seq<int>, from: int)
  {
    |st| == |ms| && Maximal(s, ms, st) && GapsClear(s, ms, st, from) && TailClear(s, ms, st, from)
  }

  /** Three digits in a suffix are three digits of the whole text, further right. */
  lemma ThreeDigitsShift(s: string, d: nat, p: int)
    requires d <= |s| && 0 <= p
    ensures ThreeDigitsAt(s[d..], p) <==> ThreeDigitsAt(s, p + d)
  {
    if p + 3 <= |s| - d {
      assert s[d..][p] == s[p + d] && s[d..][p + 1] == s[p + d + 1] && s[d..][p + 2] == s[p + d + 2];
    }
  }

  lemma MaximalShift(s: string, d: nat, ms: seq<string>, st: seq<int>)
    requires d <= |s| && |st| == |ms| && (forall k :: 0 <= k < |st| ==> st[k] >= 0)
    requires Maximal(s[d..], ms, st)
    ensures Maximal(s, ms, Shift(st, d))
  {
    forall k | 0 <= k < |ms|
      ensures |ms[k]| == 8 || !DigitAt(s, Shift(st, d)[k] + |ms[k]|)
    {
      var q := st[k] + |ms[k]|;
      if q < |s| - d {
        assert s[d..][q] == s[q + d];
      }
    }
  }

  lemma GapsClearShift(s: string, d: nat, ms: seq<string>, st: seq<int>)
    requires d <= |s| && |st| == |ms| && (forall k :: 0 <= k < |st| ==> st[k] >= 0)
    requires GapsClear(s[d..], ms, st, 0)
    ensures GapsClear(s, ms, Shift(st, d), d)
  {
    var st' := Shift(st, d);
    forall k, p | 0 <= k < |ms| && GapStart(ms, st', k, d) <= p < st'[k]
      ensures !ThreeDigitsAt(s, p)
    {
      assert GapStart(ms, st, k, 0) <= p - d < st[k];
      ThreeDigitsShift(s, d, p - d);
    }
  }

  lemma TailClearShift(s: string, d: nat, ms: seq<string>, st: seq<int>)
    requires d <= |s| && |st| == |ms| && (forall k :: 0 <= k < |st| ==> st[k] >= 0)
    requires TailClear(s[d..], ms, st, 0)
    ensures TailClear(s, ms, Shift(st, d), d)
  {
    var st' := Shift(st, d);
    forall p | GapStart(ms, st', |ms|, d) <= p < |s|
      ensures !ThreeDigitsAt(s, p)
    {
      assert 0 <= GapStart(ms, st, |ms|, 0) <= p - d;
      ThreeDigitsShift(s, d, p - d);
    }
  }

  /** A greedy scan of a suffix is a greedy scan of the whole text from where the
      suffix starts. */
  lemma GreedyShift(s: string, d: nat, ms: seq<string>, st: seq<int>)
    requires d <= |s| && SlicesAt(s[d..], ms, st) && Greedy(s[d..], ms, st, 0)
    ensures Greedy(s, ms, Shift(st, d), d)
  {
    assert forall k :: 0 <= k < |st| ==> SliceAt(s[d..], st[k], ms[k]);
    MaximalShift(s, d, ms, st);
    GapsClearShift(s, d, ms, st);
    TailClearShift(s, d, ms, st);
  }

  /** A position where no three digits begin can join the first gap. */
  lemma GreedySkip(s: string, ms: seq<string>, st: seq<int>)
    requires Greedy(s, ms, st, 1) && !ThreeDigitsAt(s, 0)
    ensures Greedy(s, ms, st, 0)
  {
    forall k, p | 0 <= k < |ms| && GapStart(ms, st, k, 0) <= p < st[k]
      ensures !ThreeDigitsAt(s, p)
    {
      if p > 0 {
        assert GapStart(ms, st, k, 1) <= p;
      }
    }
    forall p | GapStart(ms, st, |ms|, 0) <= p < |s|
      ensures !ThreeDigitsAt(s, p)
    {
      if p > 0 {
        assert GapStart(ms, st, |ms|, 1) <= p;
      }
    }
  }

  /** A maximal run at the front followed by a greedy scan after it. */
  lemma GreedyCons(s: string, n: nat, ms: seq<string>, st: seq<int>)
    requires n <= |s| && (n == 8 || !DigitAt(s, n)) && Greedy(s, ms, st, n)
    ensures Greedy(s, [s[..n]] + ms, [0] + st, 0)
  {
    var ms', st' := [s[..n]] + ms, [0] + st;
    assert forall k :: 1 <= k < |ms'| ==> ms'[k] == ms[k - 1] && st'[k] == st[k - 1];
    forall k | 0 <= k < |ms'|
      ensures |ms'[k]| == 8 || !DigitAt(s, st'[k] + |ms'[k]|)
    {
      if k > 0 {
        assert |ms[k - 1]| == 8 || !DigitAt(s, st[k - 1] + |ms[k - 1]|);
      }
    }
    forall k, p | 0 <= k < |ms'| && GapStart(ms', st', k, 0) <= p < st'[k]
      ensures !ThreeDigitsAt(s, p)
    {
      assert k > 0 && GapStart(ms', st', k, 0) == GapStart(ms, st, k - 1, n);
    }
    assert GapStart(ms', st', |ms'|, 0) == GapStart(ms, st, |ms|, n);
  }

  /** One step of the scan that takes a run of `n` >= 3 digits at the front. */
  lemma GreedyMatchStep(s: string, n: nat)
    requires 3 <= n == LeadingDigits(s, 8)
    requires SlicesAt(s[n..], DigitMatches(s[n..]), MatchStarts(s[n..]))
    requires Greedy(s[n..], DigitMatches(s[n..]), MatchStarts(s[n..]), 0)
    ensures Greedy(s, [s[..n]] + DigitMatches(s[n..]), [0] + Shift(MatchStarts(s[n..]), n), 0)
  {
    var ms, st := DigitMatches(s[n..]), MatchStarts(s[n..]);
    GreedyShift(s, n, ms, st);
    SlicesAtShift(s, n, ms, st);
    GreedyCons(s, n, ms, Shift(st, n));
  }

  /** One step of the scan that moves on by one position. */
  lemma GreedySkipStep(s: string)
    requires s != [] && LeadingDigits(s, 8) < 3
    requires SlicesAt(s[1..], DigitMatches(s[1..]), MatchStarts(s[1..]))
    requires Greedy(s[1..], DigitMatches(s[1..]), MatchStarts(s[1..]), 0)
    ensures Greedy(s, DigitMatches(s[1..]), Shift(MatchStarts(s[1..]), 1), 0)
  {
    var ms, st := DigitMatches(s[1..]), MatchStarts(s[1..]);
    assert !ThreeDigitsAt(s, 0);
    GreedyShift(s, 1, ms, st);
    SlicesAtShift(s, 1, ms, st);
    GreedySkip(s, ms, Shift(st, 1));
  }

  /** `/\d{3,8}/g` takes as many digits as it can, up to 8, and misses no three
      digits in a row. */
  lemma {:induction false} DigitMatchesGreedy(s: string)
    ensures Greedy(s, DigitMatches(s), MatchStarts(s), 0)
    decreases |s|
  {
    if s != [] {
      var n := LeadingDigits(s, 8);
      if n >= 3 {
        DigitMatchesGreedy(s[n..]);
        DigitMatchesSlices(s[n..]);
        GreedyMatchStep(s, n);
      } else {
        DigitMatchesGreedy(s[1..]);
        DigitMatchesSlices(s[1..]);
        GreedySkipStep(s);
      }
    }
  }

  function Values(m: seq<string>): (r: seq<int>)
    requires forall i :: 0 <= i < |m| ==> |m[i]| <= 8 && AllDigits(m[i])
    ensures |r| == |m|
    ensures forall i :: 0 <= i < |r| ==> 0 <= r[i] < 100000000
    ensures forall i :: 0 <= i < |r| ==> r[i] == DecimalValue(m[i])
  {
    if m == [] then []
    else
      DecimalValueBound(m[0]);
      Pow10Monotone(|m[0]|, 8);
      Pow10Eight();
      [DecimalValue(m[0])] + Values(m[1..])
  }

  /** `extractNumbersFromElement`: every match of `\d{3,8}` in the text, as a number. */
  function ExtractNumbers(text: string): (r: seq<int>)
    ensures forall i :: 0 <= i < |r| ==> 0 <= r[i] < 100000000
  {
    Values(DigitMatches(text))
  }

  /** The numbers are read from the text left to right: the k-th is the decimal
      value of a run of 3 to 8 digits of the text starting at `MatchStarts(text)[k]`,
      these runs do not overlap, and there is no number at all exactly when the
      text has no three digits in a row. `DigitMatchesGreedy` adds that each run is
      as long as it can be and that no run of three digits is passed over. */
  lemma ExtractNumbersSpec(text: string)
    ensures ExtractNumbers(text) == [] <==> forall p :: !ThreeDigitsAt(text, p)
    ensures |MatchStarts(text)| == |ExtractNumbers(text)|
    ensures forall k :: 0 <= k < |ExtractNumbers(text)| ==>
              var p, q := MatchStarts(text)[k], MatchStarts(text)[k] + |DigitMatches(text)[k]|;
              && 0 <= p && 3 <= q - p <= 8 && q <= |text| && AllDigits(text[p..q])
              && ExtractNumbers(text)[k] == DecimalValue(text[p..q])
    ensures forall k :: 0 <= k < |ExtractNumbers(text)| - 1 ==>
              MatchStarts(text)[k] + |DigitMatches(text)[k]| <= MatchStarts(text)[k + 1]
  {
    DigitMatchesEmpty(text);
    DigitMatchesSlices(text);
    var m, st := DigitMatches(text), MatchStarts(text);
    forall k | 0 <= k < |m|
      ensures AllDigits(text[st[k]..st[k] + |m[k]|]) && ExtractNumbers(text)[k] == DecimalValue(text[st[k]..st[k] + |m[k]|])
    {
      assert SliceAt(text, st[k], m[k]);
    }
  }

  lemma ExtractNumbersOfNumeral(s: string)
    requires AllDigits(s) && 3 <= |s| <= 8
    ensures ExtractNumbers(s) == [DecimalValue(s)]
    ensures ParseScore(s) == Some(DecimalValue(s))
  {
    LeadingDigitsOfDigits(s, 8);
    assert s[..|s|] == s;
    assert s[|s|..] == [];
    assert DigitMatches(s) == [s] + DigitMatches([]);
    assert DigitMatches(s) == [s];
    assert Values([s]) == [DecimalValue(s)];
    KeepDigitsOfDigits(s);
  }

  lemma {:induction false} LeadingDigitsOfDigits(s: string, max: nat)
    requires AllDigits(s) && |s| <= max
    ensures LeadingDigits(s, max) == |s|
  {
    if s != [] {
      LeadingDigitsOfDigits(s[1..], max - 1);
    }
  }

  lemma {:induction false} KeepDigitsOfDigits(s: string)
    requires AllDigits(s)
    ensures KeepDigits(s) == s
  {
    if s != [] {
      KeepDigitsOfDigits(s[..|s| - 1]);
      assert s == s[..|s| - 1] + [s[|s| - 1]];
    }
  }

  /** Strategy two of `extractScoreFromPage` after its DOM lookup: the first number
      in a profile container's text within the plausible range [100, 10000000]. */
  function ProfileAreaScore(containerText: string): (r: Option<int>)
    ensures r.Some? ==> 100 <= r.value <= 10000000 && r.value in ExtractNumbers(containerText)
    ensures r.None? <==> forall k :: 0 <= k < |ExtractNumbers(containerText)| ==>
                          !(100 <= ExtractNumbers(containerText)[k] <= 10000000)
  {
    FirstInRange(ExtractNumbers(containerText), 100, 10000000)
  }

  // ----- alerts -----

  function SuspiciousMessage(username: string, increase: nat): string
  {
    username + " score increased by " + NatToString(increase) + " (NO snap received!)"
  }

  function NormalMessage(username: string, increase: nat): string
  {
    username + " score increased by " + NatToString(increase) + " (snap received)"
  }

  /** The last stored score of a history, if there is one. */
  function PreviousScore(scores: seq<ScoreEntry>): (r: Option<int>)
    ensures r.None? <==> scores == []
    ensures r.Some? ==> r.value == scores[|scores| - 1].score
  {
    if scores == [] then None else Some(scores[|scores| - 1].score)
  }

  /** The alert a new reading raises against the previous score: one exactly when
      there was a previous score and the new score is larger; it is 'suspicious'
      exactly when no new snap was seen, and it carries the increase. */
  function NewAlert(username: string, previous: Option<int>, score: int, hasNewSnap: bool, now: int)
    : (r: Option<Alert>)
    ensures r.Some? <==> previous.Some? && score > previous.value
    ensures r.Some? ==> r.value.scoreIncrease == score - previous.value > 0
    ensures r.Some? ==> (r.value.kind == Suspicious <==> !hasNewSnap)
    ensures r.Some? ==> r.value.timestamp == now
  {
    match previous
    case None => None
    case Some(prev) =>
      var increase := score - prev;
      if increase > 0 && !hasNewSnap then
        Some(Alert(Suspicious, SuspiciousMessage(username, increase), increase, now))
      else if increase > 0 && hasNewSnap then
        Some(Alert(Normal, NormalMessage(username, increase), increase, now))
      else None
  }

  // ----- object key enumeration -----

  /** A key that JavaScript treats as an array index: the canonical decimal
      numeral of a number below 2^32 - 1. */
  predicate IsArrayIndex(key: string)
  {
    key != [] && AllDigits(key) && (|key| == 1 || key[0] != '0') && DecimalValue(key) < 4294967295
  }

  function IndexValue(key: string): int
  {
    if AllDigits(key) then DecimalValue(key) else 0
  }

  function NotArrayIndex(key: string): bool { !IsArrayIndex(key) }

  /** The order in which `for … in` visits the keys of an object whose keys were
      created in the order `keys`: array-index keys first, ascending by value, then
      the other keys in creation order. */
  function ForInOrder(keys: seq<string>): seq<string>
  {
    SortAsc(Filter(keys, IsArrayIndex), IndexValue) + Filter(keys, NotArrayIndex)
  }

  lemma ForInOrderMultiset(keys: seq<string>)
    ensures multiset(ForInOrder(keys)) == multiset(keys)
  {
    SortAscMultiset(Filter(keys, IsArrayIndex), IndexValue);
    forall x ensures multiset(ForInOrder(keys))[x] == multiset(keys)[x] {
      FilterMultiset(keys, IsArrayIndex, x);
      FilterMultiset(keys, NotArrayIndex, x);
    }
  }

  /** Sorting the index keys keeps them index keys. */
  lemma SortedIndices(keys: seq<string>)
    ensures forall k :: 0 <= k < |SortAsc(Filter(keys, IsArrayIndex), IndexValue)| ==>
              IsArrayIndex(SortAsc(Filter(keys, IsArrayIndex), IndexValue)[k])
  {
    var indices := Filter(keys, IsArrayIndex);
    var sorted := SortAsc(indices, IndexValue);
    FilterSatisfies(keys, IsArrayIndex);
    forall k | 0 <= k < |sorted| ensures IsArrayIndex(sorted[k]) {
      SortAscMembership(indices, IndexValue, sorted[k]);
      var i :| 0 <= i < |indices| && indices[i] == sorted[k];
    }
  }

  lemma ForInOrderIndicesFirst(keys: seq<string>)
    ensures forall i, j :: 0 <= i < j < |ForInOrder(keys)| && IsArrayIndex(ForInOrder(keys)[j]) ==>
              IsArrayIndex(ForInOrder(keys)[i]) && IndexValue(ForInOrder(keys)[i]) <= IndexValue(ForInOrder(keys)[j])
  {
    var sorted := SortAsc(Filter(keys, IsArrayIndex), IndexValue);
    var others := Filter(keys, NotArrayIndex);
    SortAscSorted(Filter(keys, IsArrayIndex), IndexValue);
    SortedIndices(keys);
    FilterSatisfies(keys, NotArrayIndex);
    var r := ForInOrder(keys);
    forall i, j | 0 <= i < j < |r| && IsArrayIndex(r[j])
      ensures IsArrayIndex(r[i]) && IndexValue(r[i]) <= IndexValue(r[j])
    {
      if j >= |sorted| {
        assert false;
      }
      assert r[i] == sorted[i] && r[j] == sorted[j];
    }
  }

  lemma ForInOrderOthers(keys: seq<string>)
    ensures Filter(ForInOrder(keys), NotArrayIndex) == Filter(keys, NotArrayIndex)
  {
    var sorted := SortAsc(Filter(keys, IsArrayIndex), IndexValue);
    SortedIndices(keys);
    FilterNone(sorted, NotArrayIndex);
    FilterAppend(sorted, Filter(keys, NotArrayIndex), NotArrayIndex);
    FilterIdempotent(keys, NotArrayIndex);
  }

  /** `for … in` visits every key exactly once: index keys ascending first, and
      the other keys in the order they were created. */
  lemma ForInOrderSpec(keys: seq<string>)
    ensures multiset(ForInOrder(keys)) == multiset(keys)
    ensures forall i, j :: 0 <= i < j < |ForInOrder(keys)| && IsArrayIndex(ForInOrder(keys)[j]) ==>
              IsArrayIndex(ForInOrder(keys)[i]) && IndexValue(ForInOrder(keys)[i]) <= IndexValue(ForInOrder(keys)[j])
    ensures Filter(ForInOrder(keys), NotArrayIndex) == Filter(keys, NotArrayIndex)
  {
    ForInOrderMultiset(keys);
    ForInOrderIndicesFirst(keys);
    ForInOrderOthers(keys);
  }

  /** The properties every object inherits from `Object.prototype`. For such a
      name that is not an own key, `this.scoreData[name]` is truthy. */
  const PrototypeNames: set<string> := {
    "constructor", "hasOwnProperty", "isPrototypeOf", "propertyIsEnumerable",
    "toLocaleString", "toString", "valueOf", "__proto__",
    "__defineGetter__", "__defineSetter__", "__lookupGetter__", "__lookupSetter__"
  }

  /** `!this.scoreData[name]`: the store has no record for the name, neither its own
      nor an inherited property. */
  predicate NoRecord(data: map<string, UserData>, name: string)
  {
    name !in data && name !in PrototypeNames
  }

  /** The alerts of every user, user by user in key enumeration order. */
  function AllAlerts(data: map<string, UserData>, order: seq<string>): seq<Alert>
  {
    if order == [] then []
    else
      var u := order[|order| - 1];
      AllAlerts(data, order[..|order| - 1]) + (if u in data then data[u].alerts else [])
  }

  lemma {:induction false} AllAlertsFrom(data: map<string, UserData>, order: seq<string>, a: Alert)
    requires a in AllAlerts(data, order)
    ensures exists u :: u in data && a in data[u].alerts
  {
    var u := order[|order| - 1];
    if a !in AllAlerts(data, order[..|order| - 1]) {
      assert u in data && a in data[u].alerts;
    } else {
      AllAlertsFrom(data, order[..|order| - 1], a);
    }
  }

  /** `getRecentAlerts`: every user's alerts, newest first, at most 20 of them. */
  function RecentAlerts(data: map<string, UserData>, order: seq<string>): (r: seq<Alert>)
    ensures |r| == Min(|AllAlerts(data, order)|, 20)
    ensures SortedDesc(r, AlertTime)
    ensures multiset(r) <= multiset(AllAlerts(data, order))
    ensures forall a :: a in r ==> exists u :: u in data && a in data[u].alerts
    ensures forall a, b :: a in AllAlerts(data, order) && a !in r && b in r ==> b.timestamp >= a.timestamp
  {
    var all := AllAlerts(data, order);
    var sorted := SortDesc(all, AlertTime);
    SortDescSorted(all, AlertTime);
    var r := Take(sorted, 20);
    assert r == sorted[..|r|];
    SortDescMultiset(all, AlertTime);
    PrefixMultiset(sorted, |r|);
    assert forall a :: a in r ==> a in all by {
      forall a | a in r ensures a in all {
        SortDescMembership(all, AlertTime, a);
      }
    }
    forall a | a in r ensures exists u :: u in data && a in data[u].alerts {
      AllAlertsFrom(data, order, a);
    }
    forall a, b | a in all && a !in r && b in r
      ensures b.timestamp >= a.timestamp
    {
      SortDescMembership(all, AlertTime, a);
      PrefixNewest(sorted, AlertTime, |r|, a, b);
    }
    r
  }

  // ----- messages -----

  datatype Request = Request(action: string, username: string)

  datatype Response =
    | Status(isTracking: bool, trackedUsers: seq<string>, scoreData: map<string, UserData>, alerts: seq<Alert>)
    | Success
    | Error(message: string)

  predicate KnownAction(action: string)
  {
    action in {"getStatus", "startTracking", "stopTracking", "addUser", "removeUser", "clearUsers", "clearAlerts"}
  }

  /** The record update inside `storeScoreData`: append the reading and keep the
      last 100; append the alert the increase raises, if any, and keep the last 50. */
  method UpdateRecord(userData: UserData, username: string, score: int, hasNewSnap: bool, now: int)
    returns (updated: UserData)
    ensures updated.scores == LastN(userData.scores + [ScoreEntry(score, hasNewSnap, now)], MaxScores)
    ensures updated.alerts ==
              LastN(userData.alerts + OptionToSeq(NewAlert(username, PreviousScore(userData.scores), score, hasNewSnap, now)), MaxAlerts)
  {
    var previous := if |userData.scores| > 0 then Some(userData.scores[|userData.scores| - 1].score) else None;
    assert previous == PreviousScore(userData.scores);
    var scores := userData.scores + [ScoreEntry(score, hasNewSnap, now)];
    if |scores| > MaxScores {
      scores := scores[|scores| - MaxScores..];
    }
    var alerts := userData.alerts;
    if previous.Some? {
      var increase := score - previous.value;
      if increase > 0 && !hasNewSnap {
        alerts := alerts + [Alert(Suspicious, SuspiciousMessage(username, increase), increase, now)];
      } else if increase > 0 && hasNewSnap {
        alerts := alerts + [Alert(Normal, NormalMessage(username, increase), increase, now)];
      }
    }
    assert alerts == userData.alerts + OptionToSeq(NewAlert(username, previous, score, hasNewSnap, now));
    if |alerts| > MaxAlerts {
      alerts := alerts[|alerts| - MaxAlerts..];
    }
    updated := UserData(scores, alerts);
  }

  /** The `SnapchatTracker` object of the content script. */
  class Tracker {
    var isTracking: bool
    /** Whether the periodic check timer (`checkInterval`) is installed. A timer
        is only ever installed while tracking, but tracking need not have one:
        a flag restored by `InitializeTracker` starts no timer. */
    var hasTimer: bool
    var trackedUsers: seq<string>
    var scoreData: map<string, UserData>
    /** The creation order of `scoreData`'s keys; `for … in` visits them in
        `ForInOrder(keyOrder)`. */
    var keyOrder: seq<string>

    ghost predicate Valid()
      reads this
    {
      && (hasTimer ==> isTracking)
      && NoDuplicates(trackedUsers)
      && NoDuplicates(keyOrder)
      && (forall u :: u in scoreData <==> u in keyOrder)
      && (forall u :: u in scoreData ==>
            |scoreData[u].scores| <= MaxScores && |scoreData[u].alerts| <= MaxAlerts)
    }

    constructor ()
      ensures Valid()
      ensures !isTracking && trackedUsers == [] && scoreData == map[] && keyOrder == []
    {
      isTracking, hasTimer := false, false;
      trackedUsers, scoreData, keyOrder := [], map[], [];
    }

    /** The constructor followed by its `initializeTracker`, given the stored
        tracking flag (`result.isTracking || false`, read as its truthiness):
        `loadSettings` sets the flag, and the `startTracking` that follows
        returns at once because the flag is already set, so no timer is
        installed. */
    constructor Restored(storedTracking: bool)
      ensures Valid()
      ensures isTracking == storedTracking && !hasTimer
      ensures trackedUsers == [] && scoreData == map[] && keyOrder == []
    {
      isTracking, hasTimer := false, false;
      trackedUsers, scoreData, keyOrder := [], map[], [];
      new;
      isTracking := storedTracking;
      if isTracking {
        var _ := StartTracking();
      }
    }

    /** `startTracking`: returns early when already tracking; `started` says whether
        the timer was installed (and the first check run). */
    method StartTracking() returns (started: bool)
      requires Valid()
      modifies this
      ensures Valid()
      ensures started <==> !old(isTracking)
      ensures isTracking
      ensures started ==> hasTimer
      ensures !started ==> hasTimer == old(hasTimer)
      ensures trackedUsers == old(trackedUsers) && scoreData == old(scoreData) && keyOrder == old(keyOrder)
    {
      if isTracking {
        return false;
      }
      isTracking := true;
      hasTimer := true;
      started := true;
    }

    /** `stopTracking`: returns early when not tracking; otherwise clears the timer. */
    method StopTracking() returns (stopped: bool)
      requires Valid()
      modifies this
      ensures Valid()
      ensures stopped <==> old(isTracking)
      ensures !isTracking && !hasTimer
      ensures trackedUsers == old(trackedUsers) && scoreData == old(scoreData) && keyOrder == old(keyOrder)
    {
      if !isTracking {
        return false;
      }
      isTracking := false;
      if hasTimer {
        hasTimer := false;
      }
      stopped := true;
    }

    /** `addUser`: ignores an empty or already tracked name; otherwise appends it and
        gives it an empty record unless the store already answers for the name
        (an own record or an inherited property). */
    method AddUser(username: string)
      requires Valid()
      modifies this
      ensures Valid()
      ensures username == "" || username in old(trackedUsers) ==>
        trackedUsers == old(trackedUsers) && scoreData == old(scoreData) && keyOrder == old(keyOrder)
      ensures username != "" && username !in old(trackedUsers) ==>
        && trackedUsers == old(trackedUsers) + [username]
        && (!NoRecord(old(scoreData), username) ==> scoreData == old(scoreData) && keyOrder == old(keyOrder))
        && (NoRecord(old(scoreData), username) ==>
              scoreData == old(scoreData)[username := EmptyUserData] && keyOrder == old(keyOrder) + [username])
      ensures isTracking == old(isTracking) && hasTimer == old(hasTimer)
    {
      if username == "" || username in trackedUsers {
        return;
      }
      trackedUsers := trackedUsers + [username];
      if NoRecord(scoreData, username) {
        scoreData := scoreData[username := EmptyUserData];
        keyOrder := keyOrder + [username];
      }
    }

    /** `removeUser`: drops the first occurrence of the name from the tracked list
        (no change when absent); the stored history stays. */
    method RemoveUser(username: string)
      requires Valid()
      modifies this
      ensures Valid()
      ensures trackedUsers == RemoveFirst(old(trackedUsers), username)
      ensures username !in trackedUsers
      ensures forall u :: u != username ==> (u in trackedUsers <==> u in old(trackedUsers))
      ensures multiset(trackedUsers) == multiset(old(trackedUsers)) - multiset{username}
      ensures scoreData == old(scoreData) && keyOrder == old(keyOrder)
      ensures isTracking == old(isTracking) && hasTimer == old(hasTimer)
    {
      RemoveFirstDistinct(trackedUsers, username);
      RemoveFirstMultiset(trackedUsers, username);
      if username in trackedUsers {
        var index := IndexOf(trackedUsers, username);
        trackedUsers := trackedUsers[..index] + trackedUsers[index + 1..];
      }
    }

    /** `clearUsers`: forgets every tracked name and every stored history. */
    method ClearUsers()
      requires Valid()
      modifies this
      ensures Valid()
      ensures trackedUsers == [] && scoreData == map[] && keyOrder == []
      ensures isTracking == old(isTracking) && hasTimer == old(hasTimer)
    {
      trackedUsers := [];
      scoreData := map[];
      keyOrder := [];
    }

    /** `clearAlerts`: empties every user's alerts, user by user; readings stay. */
    method ClearAlerts()
      requires Valid()
      modifies this
      ensures Valid()
      ensures scoreData.Keys == old(scoreData).Keys
      ensures forall u :: u in scoreData ==>
                scoreData[u] == UserData(old(scoreData)[u].scores, [])
      ensures trackedUsers == old(trackedUsers) && keyOrder == old(keyOrder)
      ensures isTracking == old(isTracking) && hasTimer == old(hasTimer)
    {
      var data := scoreData;
      var i := 0;
      while i < |keyOrder|
        invariant 0 <= i <= |keyOrder|
        invariant data.Keys == scoreData.Keys
        invariant forall j :: 0 <= j < i ==> data[keyOrder[j]] == UserData(scoreData[keyOrder[j]].scores, [])
        invariant forall j :: i <= j < |keyOrder| ==> data[keyOrder[j]] == scoreData[keyOrder[j]]
      {
        var u := keyOrder[i];
        data := data[u := data[u].(alerts := [])];
        i := i + 1;
      }
      forall u | u in data
        ensures data[u] == UserData(scoreData[u].scores, [])
      {
        var j :| 0 <= j < |keyOrder| && keyOrder[j] == u;
      }
      scoreData := data;
    }

    /** `storeScoreData`: appends the reading (keeping the last 100), raises
        an alert against the previous score when it went up (keeping the last 50).
        Every other user's record is left as it was. For an inherited property name
        with no record of its own the source reads `scores` of that property, which
        is undefined, and throws a `TypeError` before changing anything: `stored`
        is false then. */
    method StoreScoreData(username: string, score: int, hasNewSnap: bool, now: int) returns (stored: bool)
      requires Valid()
      modifies this
      ensures Valid()
      ensures stored <==> username in old(scoreData) || username !in PrototypeNames
      ensures !stored ==> scoreData == old(scoreData) && keyOrder == old(keyOrder)
      ensures stored ==> username in scoreData
      ensures stored ==> var old0 := if username in old(scoreData) then old(scoreData)[username] else EmptyUserData;
        && scoreData[username].scores == LastN(old0.scores + [ScoreEntry(score, hasNewSnap, now)], MaxScores)
        && scoreData[username].alerts ==
             LastN(old0.alerts + OptionToSeq(NewAlert(username, PreviousScore(old0.scores), score, hasNewSnap, now)), MaxAlerts)
      ensures forall u :: u != username ==> (u in scoreData <==> u in old(scoreData))
      ensures forall u :: u != username && u in scoreData ==> scoreData[u] == old(scoreData)[u]
      ensures stored ==> keyOrder == if username in old(scoreData) then old(keyOrder) else old(keyOrder) + [username]
      ensures trackedUsers == old(trackedUsers)
      ensures isTracking == old(isTracking) && hasTimer == old(hasTimer)
    {
      if NoRecord(scoreData, username) {
        scoreData := scoreData[username := EmptyUserData];
        keyOrder := keyOrder + [username];
      }
      if username !in scoreData {
        // an inherited property: reading `userData.scores.length` throws
        return false;
      }
      var userData := scoreData[username];
      var updated := UpdateRecord(userData, username, score, hasNewSnap, now);
      scoreData := scoreData[username := updated];
      stored := true;
    }

    /** `getRecentAlerts` over the current store. */
    function GetRecentAlerts(): (r: seq<Alert>)
      reads this
      ensures |r| <= 20 && SortedDesc(r, AlertTime)
      ensures forall a :: a in r ==> exists u :: u in scoreData && a in scoreData[u].alerts
    {
      RecentAlerts(scoreData, ForInOrder(keyOrder))
    }

    /** `handleMessage`: dispatches on the action; an unknown action gets an error
        response and changes nothing. */
    method HandleMessage(request: Request) returns (response: Response)
      requires Valid()
      modifies this
      ensures Valid()
      ensures response.Error? <==> !KnownAction(request.action)
      ensures response.Status? <==> request.action == "getStatus"
      ensures response.Status? ==>
        response == Status(isTracking, trackedUsers, scoreData, RecentAlerts(scoreData, ForInOrder(keyOrder)))
      ensures request.action == "getStatus" || !KnownAction(request.action) ==>
        isTracking == old(isTracking) && trackedUsers == old(trackedUsers)
        && scoreData == old(scoreData) && keyOrder == old(keyOrder)
      ensures request.action == "startTracking" ==>
        && isTracking
        && (!old(isTracking) ==> hasTimer)
        && (old(isTracking) ==> hasTimer == old(hasTimer))
        && trackedUsers == old(trackedUsers) && scoreData == old(scoreData) && keyOrder == old(keyOrder)
      ensures request.action == "stopTracking" ==>
        && !isTracking && !hasTimer
        && trackedUsers == old(trackedUsers) && scoreData == old(scoreData) && keyOrder == old(keyOrder)
      ensures request.action == "addUser" ==>
        && isTracking == old(isTracking) && hasTimer == old(hasTimer)
        && (request.username == "" || request.username in old(trackedUsers) ==>
              trackedUsers == old(trackedUsers) && scoreData == old(scoreData) && keyOrder == old(keyOrder))
        && (request.username != "" && request.username !in old(trackedUsers) ==>
              && trackedUsers == old(trackedUsers) + [request.username]
              && (!NoRecord(old(scoreData), request.username) ==> scoreData == old(scoreData) && keyOrder == old(keyOrder))
              && (NoRecord(old(scoreData), request.username) ==>
                    && scoreData == old(scoreData)[request.username := EmptyUserData]
                    && keyOrder == old(keyOrder) + [request.username]))
      ensures request.action == "removeUser" ==>
        && trackedUsers == RemoveFirst(old(trackedUsers), request.username)
        && scoreData == old(scoreData) && keyOrder == old(keyOrder)
        && isTracking == old(isTracking) && hasTimer == old(hasTimer)
      ensures request.action == "clearUsers" ==>
        && trackedUsers == [] && scoreData == map[] && keyOrder == []
        && isTracking == old(isTracking) && hasTimer == old(hasTimer)
      ensures request.action == "clearAlerts" ==>
        && scoreData.Keys == old(scoreData).Keys
        && (forall u :: u in scoreData ==> scoreData[u] == UserData(old(scoreData)[u].scores, []))
        && trackedUsers == old(trackedUsers) && keyOrder == old(keyOrder)
        && isTracking == old(isTracking) && hasTimer == old(hasTimer)
    {
      match request.action
      case "getStatus" =>
        response := Status(isTracking, trackedUsers, scoreData, GetRecentAlerts());
      case "startTracking" =>
        var _ := StartTracking();
        response := Success;
      case "stopTracking" =>
        var _ := StopTracking();
        response := Success;
      case "addUser" =>
        AddUser(request.username);
        response := Success;
      case "removeUser" =>
        RemoveUser(request.username);
        response := Success;
      case "clearUsers" =>
        ClearUsers();
        response := Success;
      case "clearAlerts" =>
        ClearAlerts();
        response := Success;
      case _ =>
        response := Error("Unknown action");
    }
  }

  /** A page reload with tracking stored on: the restored tracker tracks with no
      timer, and a later `startTracking` message installs none either. */
  method ReloadWhileTracking() returns (t: Tracker)
    ensures t.Valid() && t.isTracking && !t.hasTimer
  {
    t := new Tracker.Restored(true);
    var _ := t.HandleMessage(Request("startTracking", ""));
  }

  /** A reading raises a suspicious alert exactly when it is an increase seen with no new snap. */
  lemma NewAlertSuspicious(username: string, scores: seq<ScoreEntry>, score: int, hasNewSnap: bool, now: int)
    ensures var a := NewAlert(username, PreviousScore(scores), score, hasNewSnap, now);
      (a.Some? && a.value.kind == Suspicious) <==> (scores != [] && score > scores[|scores| - 1].score && !hasNewSnap)
  {
  }

  /** After storing a reading the history is non-empty, ends with the reading, holds at
      most 100 entries and is a suffix of the old history followed by the new reading. */
  lemma StoredHistory(old0: seq<ScoreEntry>, e: ScoreEntry)
    ensures var s := LastN(old0 + [e], MaxScores);
      && s != [] && s[|s| - 1] == e && |s| <= MaxScores
      && s == (old0 + [e])[|old0 + [e]| - |s|..]
  {
  }
}
