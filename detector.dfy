/**
 * The sliding-window detectors for names and locations
 * (`parse_prompt_for_pii_names`, `parse_prompt_for_pii_locations`) and their
 * matchers (`find_name_matches`, `find_location_matches`).
 *
 * A pass of width w tries every window of w consecutive tokens, left to
 * right; a window is skipped if one of its positions is already used, or
 * if its text is shorter than three characters; a window whose text the
 * matcher accepts contributes the matches and marks its positions used.
 * Names are scanned with widths 3, 2, 1 and locations with 4, 3, 2, 1.
 */
module Detector {
  import opened PhpStr
  import opened Assoc

  const MinChars: nat := 3
  const NameSimilarityThreshold: real := 80.0
  const MaxLevenshteinDistance: nat := 2

  /** Words that never match, compared after lower-casing. */
  const StopWords: seq<string> :=
    ["the", "and", "or", "but", "in", "on", "at", "to", "for", "of", "with", "by",
     "from", "about", "into", "through", "during", "before", "after", "above",
     "below", "between", "among", "this", "that", "these", "those"]

  /** `similar_text`'s percentage for two lower-cased strings, supplied by the caller. */
  type Similarity = (string, string) -> real

  /** A matcher maps a window's text to the list of matches it contributes. */
  type Matcher = string -> seq<string>

  // ---------------------------------------------------------------------
  // Matchers
  // ---------------------------------------------------------------------

  /** One title against one search term: the five checks of find_name_matches, in order. */
  predicate TitleMatches(term: string, title: string, similarity: Similarity)
  {
    var t := Lower(term);
    var n := Lower(title);
    if t == n then true
    else if StartsWith(n, t) then true
    else if Contains(n, t) then true
    else if similarity(t, n) >= NameSimilarityThreshold then true
    else |term| > 3 && |title| > 3 && Levenshtein(t, n) <= MaxLevenshteinDistance
  }

  /**
   * The equality and prefix checks are subsumed by the containment check:
   * a title matches iff it contains the term, or is similar enough, or is
   * within Levenshtein distance 2 when both are longer than three characters.
   */
  lemma TitleMatchesCharacterised(term: string, title: string, similarity: Similarity)
    ensures var t := Lower(term); var n := Lower(title);
            TitleMatches(term, title, similarity)
            <==> Contains(n, t) || similarity(t, n) >= NameSimilarityThreshold
                 || (|term| > 3 && |title| > 3 && Levenshtein(t, n) <= MaxLevenshteinDistance)
  {
  }

  /** A term always matches a title equal to it up to case. */
  lemma {:induction false} TitleMatchesItself(term: string, title: string, similarity: Similarity)
    requires Lower(term) == Lower(title)
    ensures TitleMatches(term, title, similarity)
  {
  }

  /** One copy of the term per title it matches, in title order. */
  function MatchesIn(term: string, titles: seq<string>, similarity: Similarity): (r: seq<string>)
    ensures forall k :: 0 <= k < |r| ==> r[k] == term
    ensures |r| == 0 <==> forall k :: 0 <= k < |titles| ==> !TitleMatches(term, titles[k], similarity)
    decreases |titles|
  {
    if |titles| == 0 then []
    else
      var init := titles[..|titles| - 1];
      assert forall k :: 0 <= k < |init| ==> init[k] == titles[k];
      MatchesIn(term, init, similarity)
      + (if TitleMatches(term, titles[|titles| - 1], similarity) then [term] else [])
  }

  /** What find_name_matches returns for a term. */
  function NameMatches(term: string, titles: seq<string>, similarity: Similarity): (r: seq<string>)
    ensures Lower(term) in StopWords ==> r == []
    ensures forall k :: 0 <= k < |r| ==> r[k] == term
    ensures |r| > 0 <==> Lower(term) !in StopWords
                         && exists k :: 0 <= k < |titles| && TitleMatches(term, titles[k], similarity)
  {
    if Lower(term) in StopWords then [] else MatchesIn(term, titles, similarity)
  }

  /** find_name_matches: the stop-word check, then one pass over the titles. */
  method FindNameMatches(term: string, titles: seq<string>, similarity: Similarity)
    returns (matches: seq<string>)
    ensures matches == NameMatches(term, titles, similarity)
  {
    var t := Lower(term);
    if t in StopWords {
      return [];
    }
    matches := [];
    for k := 0 to |titles|
      invariant matches == MatchesIn(term, titles[..k], similarity)
    {
      var n := Lower(titles[k]);
      var hit := false;
      if t == n {
        hit := true;
      } else if StartsWith(n, t) {
        hit := true;
      } else if Contains(n, t) {
        hit := true;
      } else if similarity(t, n) >= NameSimilarityThreshold {
        hit := true;
      } else if |term| > 3 && |titles[k]| > 3 {
        var distance := Levenshtein(t, n);
        hit := distance <= MaxLevenshteinDistance;
      }
      assert titles[..k + 1][..k] == titles[..k];
      if hit {
        matches := matches + [term];
      }
    }
    assert titles[..|titles|] == titles;
  }

  /** One copy of the term per location name equal to it up to case. */
  function ExactMatchesIn(term: string, names: seq<string>): (r: seq<string>)
    ensures forall k :: 0 <= k < |r| ==> r[k] == term
    ensures |r| == 0 <==> forall k :: 0 <= k < |names| ==> Lower(names[k]) != Lower(term)
    decreases |names|
  {
    if |names| == 0 then []
    else
      var init := names[..|names| - 1];
      assert forall k :: 0 <= k < |init| ==> init[k] == names[k];
      ExactMatchesIn(term, init)
      + (if Lower(term) == Lower(names[|names| - 1]) then [term] else [])
  }

  /** What find_location_matches returns: only its exact-match branch is live. */
  function LocationMatches(term: string, names: seq<string>): (r: seq<string>)
    ensures Lower(term) in StopWords ==> r == []
    ensures forall k :: 0 <= k < |r| ==> r[k] == term
    ensures |r| > 0 <==> Lower(term) !in StopWords
                         && exists k :: 0 <= k < |names| && Lower(names[k]) == Lower(term)
  {
    if Lower(term) in StopWords then [] else ExactMatchesIn(term, names)
  }

  method FindLocationMatches(term: string, names: seq<string>) returns (matches: seq<string>)
    ensures matches == LocationMatches(term, names)
  {
    var t := Lower(term);
    if t in StopWords {
      return [];
    }
    matches := [];
    for k := 0 to |names|
      invariant matches == ExactMatchesIn(term, names[..k])
    {
      assert names[..k + 1][..k] == names[..k];
      if t == Lower(names[k]) {
        matches := matches + [term];
      }
    }
    assert names[..|names|] == names;
  }

  /** A location match is always at least as good as a name match against the same list. */
  lemma {:induction false} LocationMatchImpliesNameMatch(term: string, names: seq<string>, similarity: Similarity)
    ensures |LocationMatches(term, names)| > 0 ==> |NameMatches(term, names, similarity)| > 0
  {
    if |LocationMatches(term, names)| > 0 {
      var k :| 0 <= k < |names| && Lower(names[k]) == Lower(term);
      TitleMatchesItself(term, names[k], similarity);
    }
  }

  function NameMatcher(titles: seq<string>, similarity: Similarity): Matcher
  {
    t => NameMatches(t, titles, similarity)
  }

  function LocationMatcher(names: seq<string>): Matcher
  {
    t => LocationMatches(t, names)
  }

  // ---------------------------------------------------------------------
  // Windows and passes
  // ---------------------------------------------------------------------

  /** The tokens start .. start + width - 1. */
  datatype Window = Window(start: nat, width: nat)

  predicate InBounds(tokens: seq<string>, w: Window)
  {
    w.width >= 1 && w.start + w.width <= |tokens|
  }

  /** The integers lo .. hi - 1. */
  function Range(lo: int, hi: int): (r: set<int>)
    ensures forall p :: p in r <==> lo <= p < hi
    decreases hi - lo
  {
    if lo >= hi then {} else {lo} + Range(lo + 1, hi)
  }

  /** The token positions a window covers. */
  function Cells(w: Window): set<int>
  {
    Range(w.start, w.start + w.width)
  }

  /** The window's tokens joined by single spaces, then trimmed. */
  function WindowText(tokens: seq<string>, w: Window): string
    requires w.start + w.width <= |tokens|
  {
    Trim(Implode(" ", tokens[w.start..w.start + w.width]))
  }

  /** The state a scan threads through its passes; `accepted` records the windows that matched. */
  datatype ScanState = ScanState(used: set<int>, found: seq<string>, accepted: seq<Window>)

  /** One iteration of a pass, at window w. */
  function Step(tokens: seq<string>, m: Matcher, st: ScanState, w: Window): ScanState
    requires w.start + w.width <= |tokens|
  {
    if Cells(w) * st.used != {} then st
    else
      var text := WindowText(tokens, w);
      if |text| < MinChars then st
      else if |m(text)| == 0 then st
      else ScanState(st.used + Cells(w), st.found + m(text), st.accepted + [w])
  }

  /** A pass of the given width from window start i to the last full window. */
  function Pass(tokens: seq<string>, m: Matcher, width: nat, i: nat, st: ScanState): ScanState
    requires width >= 1
    decreases |tokens| - i
  {
    if i + width <= |tokens| then Pass(tokens, m, width, i + 1, Step(tokens, m, st, Window(i, width)))
    else st
  }

  /**
   * The source's `for` loop of one width. The accepted windows are ghost
   * bookkeeping; `used` and `found` are the source's `$used_tokens` and
   * found list.
   */
  method ScanPass(tokens: seq<string>, m: Matcher, width: nat,
                  used0: set<int>, found0: seq<string>, ghost accepted0: seq<Window>)
    returns (used: set<int>, found: seq<string>, ghost accepted: seq<Window>)
    requires width >= 1
    ensures ScanState(used, found, accepted) == Pass(tokens, m, width, 0, ScanState(used0, found0, accepted0))
  {
    used, found, accepted := used0, found0, accepted0;
    var i := 0;
    while i + width <= |tokens|
      invariant Pass(tokens, m, width, i, ScanState(used, found, accepted))
                == Pass(tokens, m, width, 0, ScanState(used0, found0, accepted0))
      decreases |tokens| - i
    {
      ghost var before := ScanState(used, found, accepted);
      ghost var w := Window(i, width);
      var cells := Range(i, i + width);
      assert cells == Cells(w);
      if cells * used == {} {
        var text := Trim(Implode(" ", tokens[i..i + width]));
        assert text == WindowText(tokens, w);
        if |text| >= MinChars {
          var matches := m(text);
          if |matches| > 0 {
            found := found + matches;
            used := used + cells;
            accepted := accepted + [w];
            assert ScanState(used, found, accepted) == Step(tokens, m, before, w);
          } else {
            assert before == Step(tokens, m, before, w);
          }
        } else {
          assert before == Step(tokens, m, before, w);
        }
      } else {
        assert before == Step(tokens, m, before, w);
      }
      PassUnfold(tokens, m, width, i, before);
      i := i + 1;
    }
  }

  lemma PassUnfold(tokens: seq<string>, m: Matcher, width: nat, i: nat, st: ScanState)
    requires width >= 1 && i + width <= |tokens|
    ensures Pass(tokens, m, width, i, st) == Pass(tokens, m, width, i + 1, Step(tokens, m, st, Window(i, width)))
  {
  }

  // ---------------------------------------------------------------------
  // The two detectors
  // ---------------------------------------------------------------------

  function NameScan(tokens: seq<string>, titles: seq<string>, similarity: Similarity): ScanState
  {
    var m := NameMatcher(titles, similarity);
    Pass(tokens, m, 1, 0, Pass(tokens, m, 2, 0, Pass(tokens, m, 3, 0, ScanState({}, [], []))))
  }

  /** What parse_prompt_for_pii_names returns for the prompt's tokens and the post titles. */
  function PiiNames(tokens: seq<string>, titles: seq<string>, similarity: Similarity): seq<string>
  {
    Unique(NameScan(tokens, titles, similarity).found)
  }

  /**
   * parse_prompt_for_pii_names over the prompt's tokens (the `preg_split`
   * tokenisation) and the post titles of the post type.
   */
  method ParsePromptForPiiNames(tokens: seq<string>, titles: seq<string>, similarity: Similarity)
    returns (names: seq<string>)
    ensures names == PiiNames(tokens, titles, similarity)
  {
    var m := NameMatcher(titles, similarity);
    var used, found;
    ghost var accepted;
    used, found, accepted := ScanPass(tokens, m, 3, {}, [], []);
    used, found, accepted := ScanPass(tokens, m, 2, used, found, accepted);
    used, found, accepted := ScanPass(tokens, m, 1, used, found, accepted);
    names := Unique(found);
  }

  /** The location scan starts from the address and postal-code pattern hits. */
  function LocationScan(patternHits: seq<string>, tokens: seq<string>, names: seq<string>): ScanState
  {
    var m := LocationMatcher(names);
    Pass(tokens, m, 1, 0, Pass(tokens, m, 2, 0, Pass(tokens, m, 3, 0,
      Pass(tokens, m, 4, 0, ScanState({}, patternHits, [])))))
  }

  function PiiLocations(patternHits: seq<string>, tokens: seq<string>, names: seq<string>): seq<string>
  {
    Unique(LocationScan(patternHits, tokens, names).found)
  }

  /**
   * parse_prompt_for_pii_locations after its regex stage: the trimmed
   * address and postal-code hits, the prompt's tokens and the location names.
   */
  method ParsePromptForPiiLocations(patternHits: seq<string>, tokens: seq<string>, names: seq<string>)
    returns (locations: seq<string>)
    ensures locations == PiiLocations(patternHits, tokens, names)
  {
    var m := LocationMatcher(names);
    var used, found;
    ghost var accepted;
    used, found, accepted := ScanPass(tokens, m, 4, {}, patternHits, []);
    used, found, accepted := ScanPass(tokens, m, 3, used, found, accepted);
    used, found, accepted := ScanPass(tokens, m, 2, used, found, accepted);
    used, found, accepted := ScanPass(tokens, m, 1, used, found, accepted);
    locations := Unique(found);
  }
  // ---------------------------------------------------------------------
  // What a scan guarantees
  // ---------------------------------------------------------------------

  function UnionCells(accepted: seq<Window>): set<int>
    decreases |accepted|
  {
    if |accepted| == 0 then {}
    else UnionCells(accepted[..|accepted| - 1]) + Cells(accepted[|accepted| - 1])
  }

  predicate AllInBounds(tokens: seq<string>, accepted: seq<Window>)
  {
    forall k :: 0 <= k < |accepted| ==> InBounds(tokens, accepted[k])
  }

  /** The matches contributed by the accepted windows, in order. */
  function FoundBy(tokens: seq<string>, m: Matcher, accepted: seq<Window>): seq<string>
    requires AllInBounds(tokens, accepted)
    decreases |accepted|
  {
    if |accepted| == 0 then []
    else
      var init := accepted[..|accepted| - 1];
      assert AllInBounds(tokens, init) by {
        assert forall k :: 0 <= k < |init| ==> init[k] == accepted[k];
      }
      FoundBy(tokens, m, init) + m(WindowText(tokens, accepted[|accepted| - 1]))
  }

  /** A window long enough whose text the matcher accepts. */
  predicate Accepts(tokens: seq<string>, m: Matcher, w: Window)
    requires w.start + w.width <= |tokens|
  {
    |WindowText(tokens, w)| >= MinChars && |m(WindowText(tokens, w))| > 0
  }

  /** Every window of the list is accepted (stated recursively, one window at a time). */
  predicate AllAccepted(tokens: seq<string>, m: Matcher, accepted: seq<Window>)
    requires AllInBounds(tokens, accepted)
    decreases |accepted|
  {
    |accepted| == 0
    || (var init := accepted[..|accepted| - 1];
        assert AllInBounds(tokens, init) by {
          assert forall k :: 0 <= k < |init| ==> init[k] == accepted[k];
        }
        AllAccepted(tokens, m, init) && Accepts(tokens, m, accepted[|accepted| - 1]))
  }

  lemma {:induction false} AllAcceptedAt(tokens: seq<string>, m: Matcher, accepted: seq<Window>, k: nat)
    requires AllInBounds(tokens, accepted) && AllAccepted(tokens, m, accepted) && k < |accepted|
    ensures Accepts(tokens, m, accepted[k])
    decreases |accepted|
  {
    if k < |accepted| - 1 {
      var init := accepted[..|accepted| - 1];
      assert forall j :: 0 <= j < |init| ==> init[j] == accepted[j];
      AllAcceptedAt(tokens, m, init, k);
    }
  }

  predicate PairwiseDisjoint(accepted: seq<Window>)
  {
    forall a, b :: 0 <= a < b < |accepted| ==> Cells(accepted[a]) !! Cells(accepted[b])
  }

  /**
   * The invariant every pass keeps: the accepted windows are in bounds,
   * pairwise disjoint and all accepted by the matcher; the used positions
   * are exactly their cells; the found list is the base list followed by
   * their matches.
   */
  predicate ScanInv(tokens: seq<string>, m: Matcher, base: seq<string>, st: ScanState)
  {
    && AllInBounds(tokens, st.accepted)
    && PairwiseDisjoint(st.accepted)
    && st.used == UnionCells(st.accepted)
    && st.found == base + FoundBy(tokens, m, st.accepted)
    && AllAccepted(tokens, m, st.accepted)
  }

  lemma {:induction false} CellsInUnion(accepted: seq<Window>, a: nat)
    requires a < |accepted|
    ensures Cells(accepted[a]) <= UnionCells(accepted)
    decreases |accepted|
  {
    if a < |accepted| - 1 {
      var init := accepted[..|accepted| - 1];
      CellsInUnion(init, a);
    }
  }

  lemma {:induction false} StepInv(tokens: seq<string>, m: Matcher, base: seq<string>, st: ScanState, w: Window)
    requires InBounds(tokens, w) && ScanInv(tokens, m, base, st)
    ensures ScanInv(tokens, m, base, Step(tokens, m, st, w))
  {
    if Cells(w) * st.used == {} && Accepts(tokens, m, w) {
      AcceptInv(tokens, m, base, st, w);
    }
  }

  /** Accepting a free window keeps the invariant. */
  lemma {:induction false} AcceptInv(tokens: seq<string>, m: Matcher, base: seq<string>, st: ScanState, w: Window)
    requires InBounds(tokens, w) && ScanInv(tokens, m, base, st)
    requires Cells(w) * st.used == {} && Accepts(tokens, m, w)
    ensures ScanInv(tokens, m, base, ScanState(st.used + Cells(w), st.found + m(WindowText(tokens, w)), st.accepted + [w]))
  {
    AppendBounds(tokens, st.accepted, w);
    AppendDisjoint(st.accepted, w);
    assert (st.accepted + [w])[..|st.accepted|] == st.accepted;
    AppendUnion(st.accepted, w);
    AppendFound(tokens, m, st.accepted, w);
    ConcatAssoc(base, FoundBy(tokens, m, st.accepted), m(WindowText(tokens, w)));
  }

  lemma ConcatAssoc<T>(a: seq<T>, b: seq<T>, c: seq<T>)
    ensures (a + b) + c == a + (b + c)
  {
  }

  lemma AppendUnion(accepted: seq<Window>, w: Window)
    ensures UnionCells(accepted + [w]) == UnionCells(accepted) + Cells(w)
  {
    assert (accepted + [w])[..|accepted|] == accepted;
  }

  lemma AppendFound(tokens: seq<string>, m: Matcher, accepted: seq<Window>, w: Window)
    requires AllInBounds(tokens, accepted) && InBounds(tokens, w)
    ensures AllInBounds(tokens, accepted + [w])
    ensures FoundBy(tokens, m, accepted + [w]) == FoundBy(tokens, m, accepted) + m(WindowText(tokens, w))
  {
    AppendBounds(tokens, accepted, w);
    assert (accepted + [w])[..|accepted|] == accepted;
  }

  lemma AppendBounds(tokens: seq<string>, accepted: seq<Window>, w: Window)
    requires AllInBounds(tokens, accepted) && InBounds(tokens, w)
    ensures AllInBounds(tokens, accepted + [w])
  {
    var acc := accepted + [w];
    assert forall k :: 0 <= k < |accepted| ==> acc[k] == accepted[k];
  }

  lemma AppendDisjoint(accepted: seq<Window>, w: Window)
    requires PairwiseDisjoint(accepted) && Cells(w) * UnionCells(accepted) == {}
    ensures PairwiseDisjoint(accepted + [w])
  {
    var acc := accepted + [w];
    forall a, b | 0 <= a < b < |acc| ensures Cells(acc[a]) !! Cells(acc[b]) {
      if b == |acc| - 1 {
        CellsInUnion(accepted, a);
      } else {
        assert acc[a] == accepted[a] && acc[b] == accepted[b];
      }
    }
  }

  lemma {:induction false} PassInv(tokens: seq<string>, m: Matcher, base: seq<string>,
                                   width: nat, i: nat, st: ScanState)
    requires width >= 1 && ScanInv(tokens, m, base, st)
    ensures ScanInv(tokens, m, base, Pass(tokens, m, width, i, st))
    decreases |tokens| - i
  {
    if i + width <= |tokens| {
      StepInv(tokens, m, base, st, Window(i, width));
      PassInv(tokens, m, base, width, i + 1, Step(tokens, m, st, Window(i, width)));
    }
  }

  /**
   * A pass only appends windows of its own width, starting at or after i,
   * and never forgets a used position.
   */
  lemma {:induction false} PassAppends(tokens: seq<string>, m: Matcher, width: nat, i: nat, st: ScanState)
    requires width >= 1
    ensures var r := Pass(tokens, m, width, i, st);
            && |st.accepted| <= |r.accepted| && r.accepted[..|st.accepted|] == st.accepted
            && (forall k :: |st.accepted| <= k < |r.accepted| ==> r.accepted[k].width == width)
            && st.used <= r.used
    decreases |tokens| - i
  {
    if i + width <= |tokens| {
      var s := Step(tokens, m, st, Window(i, width));
      PassAppends(tokens, m, width, i + 1, s);
      var r := Pass(tokens, m, width, i + 1, s);
      var w := Window(i, width);
      if Cells(w) * st.used == {} && |WindowText(tokens, w)| >= MinChars && |m(WindowText(tokens, w))| > 0 {
        var n := |st.accepted|;
        assert s.accepted == st.accepted + [w];
        assert r.accepted[..n + 1] == s.accepted;
        assert r.accepted[..n] == r.accepted[..n + 1][..n];
        assert r.accepted[n] == r.accepted[..n + 1][n];
        assert st.used <= s.used;
      } else {
        assert s == st;
      }
    }
  }

  /**
   * After a pass of width 1, every position the pass reached and left unused
   * is a single token too short or not matched: no matchable token is missed.
   */
  lemma {:induction false} SingleTokenPassComplete(tokens: seq<string>, m: Matcher, i: nat, st: ScanState)
    ensures var r := Pass(tokens, m, 1, i, st);
            forall p :: i <= p < |tokens| && p !in r.used ==> !Accepts(tokens, m, Window(p, 1))
    decreases |tokens| - i
  {
    if i + 1 <= |tokens| {
      var w := Window(i, 1);
      var s := Step(tokens, m, st, w);
      SingleTokenPassComplete(tokens, m, i + 1, s);
      PassAppends(tokens, m, 1, i + 1, s);
      var r := Pass(tokens, m, 1, i, st);
      assert r == Pass(tokens, m, 1, i + 1, s);
      assert i in Cells(w);
      if Accepts(tokens, m, w) {
        if Cells(w) * st.used != {} {
          assert i in st.used;
        } else {
          assert i in s.used;
        }
        assert st.used <= s.used;
      }
    }
  }

  /** A one-token window's text is the trimmed token. */
  lemma SingleWindowText(tokens: seq<string>, p: nat)
    requires p < |tokens|
    ensures WindowText(tokens, Window(p, 1)) == Trim(tokens[p])
  {
    assert tokens[p..p + 1] == [tokens[p]];
  }

  lemma {:induction false} FoundByMember(tokens: seq<string>, m: Matcher, accepted: seq<Window>, x: string)
    requires AllInBounds(tokens, accepted) && x in FoundBy(tokens, m, accepted)
    ensures exists k :: 0 <= k < |accepted| && x in m(WindowText(tokens, accepted[k]))
    decreases |accepted|
  {
    var init := accepted[..|accepted| - 1];
    assert forall k :: 0 <= k < |init| ==> init[k] == accepted[k];
    if x !in m(WindowText(tokens, accepted[|accepted| - 1])) {
      FoundByMember(tokens, m, init, x);
      var k :| 0 <= k < |init| && x in m(WindowText(tokens, init[k]));
      assert accepted[k] == init[k];
    }
  }

  // ---------------------------------------------------------------------
  // Properties of the name detector
  // ---------------------------------------------------------------------

  lemma NameScanInv(tokens: seq<string>, titles: seq<string>, similarity: Similarity)
    ensures ScanInv(tokens, NameMatcher(titles, similarity), [], NameScan(tokens, titles, similarity))
  {
    var m := NameMatcher(titles, similarity);
    var s0 := ScanState({}, [], []);
    PassInv(tokens, m, [], 3, 0, s0);
    var s3 := Pass(tokens, m, 3, 0, s0);
    PassInv(tokens, m, [], 2, 0, s3);
    PassInv(tokens, m, [], 1, 0, Pass(tokens, m, 2, 0, s3));
  }

  /**
   * Accepted name windows never overlap, and the used positions are exactly
   * the positions they cover.
   */
  lemma NameWindowsDisjoint(tokens: seq<string>, titles: seq<string>, similarity: Similarity)
    ensures var st := NameScan(tokens, titles, similarity);
            AllInBounds(tokens, st.accepted) && PairwiseDisjoint(st.accepted)
            && st.used == UnionCells(st.accepted)
  {
    NameScanInv(tokens, titles, similarity);
  }

  /**
   * Every accepted window's text has at least three characters, is not a
   * stop word, and matches some title.
   */
  lemma {:induction false} NameWindowsMatch(tokens: seq<string>, titles: seq<string>, similarity: Similarity)
    ensures var st := NameScan(tokens, titles, similarity);
            AllInBounds(tokens, st.accepted)
            && forall k :: 0 <= k < |st.accepted| ==>
                 var text := WindowText(tokens, st.accepted[k]);
                 |text| >= MinChars && Lower(text) !in StopWords
                 && exists j :: 0 <= j < |titles| && TitleMatches(text, titles[j], similarity)
  {
    NameScanAccepted(tokens, titles, similarity);
    NameWindowsAccepted(tokens, titles, similarity, NameScan(tokens, titles, similarity).accepted);
  }

  lemma NameWindowsAccepted(tokens: seq<string>, titles: seq<string>, similarity: Similarity, accepted: seq<Window>)
    requires AllInBounds(tokens, accepted) && AllAccepted(tokens, NameMatcher(titles, similarity), accepted)
    ensures forall k :: 0 <= k < |accepted| ==>
              var text := WindowText(tokens, accepted[k]);
              |text| >= MinChars && Lower(text) !in StopWords
              && exists j :: 0 <= j < |titles| && TitleMatches(text, titles[j], similarity)
  {
    forall k | 0 <= k < |accepted|
      ensures var text := WindowText(tokens, accepted[k]);
              |text| >= MinChars && Lower(text) !in StopWords
              && exists j :: 0 <= j < |titles| && TitleMatches(text, titles[j], similarity)
    {
      NameWindowAccepted(tokens, titles, similarity, accepted, k);
    }
  }

  lemma NameScanAccepted(tokens: seq<string>, titles: seq<string>, similarity: Similarity)
    ensures var st := NameScan(tokens, titles, similarity);
            AllInBounds(tokens, st.accepted) && AllAccepted(tokens, NameMatcher(titles, similarity), st.accepted)
  {
    NameScanInv(tokens, titles, similarity);
  }

  lemma NameWindowAccepted(tokens: seq<string>, titles: seq<string>, similarity: Similarity,
                           accepted: seq<Window>, k: nat)
    requires AllInBounds(tokens, accepted) && AllAccepted(tokens, NameMatcher(titles, similarity), accepted)
    requires k < |accepted|
    ensures var text := WindowText(tokens, accepted[k]);
            |text| >= MinChars && Lower(text) !in StopWords
            && exists j :: 0 <= j < |titles| && TitleMatches(text, titles[j], similarity)
  {
    AllAcceptedAt(tokens, NameMatcher(titles, similarity), accepted, k);
    var text := WindowText(tokens, accepted[k]);
    assert |NameMatches(text, titles, similarity)| > 0;
  }

  /** Windows are accepted longest first: three tokens, then two, then one. */
  lemma {:induction false} NameWindowsLongestFirst(tokens: seq<string>, titles: seq<string>, similarity: Similarity)
    ensures var st := NameScan(tokens, titles, similarity);
            (forall k :: 0 <= k < |st.accepted| ==> 1 <= st.accepted[k].width <= 3)
            && forall a, b :: 0 <= a < b < |st.accepted| ==> st.accepted[a].width >= st.accepted[b].width
  {
    var m := NameMatcher(titles, similarity);
    var s0 := ScanState({}, [], []);
    var s3 := Pass(tokens, m, 3, 0, s0);
    var s2 := Pass(tokens, m, 2, 0, s3);
    var s1 := Pass(tokens, m, 1, 0, s2);
    PassAppends(tokens, m, 3, 0, s0);
    PassAppends(tokens, m, 2, 0, s3);
    PassAppends(tokens, m, 1, 0, s2);
    var n3, n2 := |s3.accepted|, |s2.accepted|;
    forall k | 0 <= k < |s1.accepted|
      ensures s1.accepted[k].width == if k < n3 then 3 else if k < n2 then 2 else 1
    {
      if k < n2 {
        assert s1.accepted[k] == s1.accepted[..n2][k] == s2.accepted[k];
        if k < n3 {
          assert s2.accepted[k] == s2.accepted[..n3][k] == s3.accepted[k];
        }
      }
    }
  }

  /** No single token that would match a title is left unused by the scan. */
  lemma NameScanMissesNoToken(tokens: seq<string>, titles: seq<string>, similarity: Similarity)
    ensures var st := NameScan(tokens, titles, similarity);
            forall p :: 0 <= p < |tokens| && p !in st.used ==>
              |Trim(tokens[p])| < MinChars || NameMatches(Trim(tokens[p]), titles, similarity) == []
  {
    var m := NameMatcher(titles, similarity);
    var s2 := Pass(tokens, m, 2, 0, Pass(tokens, m, 3, 0, ScanState({}, [], [])));
    SingleTokenPassComplete(tokens, m, 0, s2);
    forall p | 0 <= p < |tokens| {
      SingleWindowText(tokens, p);
    }
  }

  /**
   * The detected names are distinct, and each is the text of an accepted
   * window (so a run of prompt tokens that matched some title).
   */
  lemma {:induction false} PiiNamesAreWindowTexts(tokens: seq<string>, titles: seq<string>, similarity: Similarity)
    ensures var st := NameScan(tokens, titles, similarity);
            var names := PiiNames(tokens, titles, similarity);
            Distinct(names) && AllInBounds(tokens, st.accepted)
            && forall x :: x in names ==>
                 exists k :: 0 <= k < |st.accepted| && x == WindowText(tokens, st.accepted[k])
  {
    NameScanFound(tokens, titles, similarity);
    var st := NameScan(tokens, titles, similarity);
    NamesFromWindows(tokens, titles, similarity, st.accepted, Unique(st.found));
  }

  lemma NamesFromWindows(tokens: seq<string>, titles: seq<string>, similarity: Similarity,
                         accepted: seq<Window>, names: seq<string>)
    requires AllInBounds(tokens, accepted)
    requires forall x :: x in names ==> x in FoundBy(tokens, NameMatcher(titles, similarity), accepted)
    ensures forall x :: x in names ==> exists k :: 0 <= k < |accepted| && x == WindowText(tokens, accepted[k])
  {
    forall x | x in names
      ensures exists k :: 0 <= k < |accepted| && x == WindowText(tokens, accepted[k])
    {
      NameFromWindow(tokens, titles, similarity, accepted, x);
    }
  }

  lemma NameFromWindow(tokens: seq<string>, titles: seq<string>, similarity: Similarity,
                       accepted: seq<Window>, x: string)
    requires AllInBounds(tokens, accepted) && x in FoundBy(tokens, NameMatcher(titles, similarity), accepted)
    ensures exists k :: 0 <= k < |accepted| && x == WindowText(tokens, accepted[k])
  {
    FoundByMember(tokens, NameMatcher(titles, similarity), accepted, x);
    var k :| 0 <= k < |accepted| && x in NameMatcher(titles, similarity)(WindowText(tokens, accepted[k]));
    NameMatchesAreTerm(WindowText(tokens, accepted[k]), titles, similarity, x);
  }

  lemma NameScanFound(tokens: seq<string>, titles: seq<string>, similarity: Similarity)
    ensures var st := NameScan(tokens, titles, similarity);
            AllInBounds(tokens, st.accepted) && st.found == FoundBy(tokens, NameMatcher(titles, similarity), st.accepted)
  {
    NameScanInv(tokens, titles, similarity);
    var st := NameScan(tokens, titles, similarity);
    assert [] + FoundBy(tokens, NameMatcher(titles, similarity), st.accepted)
           == FoundBy(tokens, NameMatcher(titles, similarity), st.accepted);
  }

  lemma NameMatchesAreTerm(term: string, titles: seq<string>, similarity: Similarity, x: string)
    requires x in NameMatcher(titles, similarity)(term)
    ensures x == term
  {
    var r := NameMatches(term, titles, similarity);
    var k :| 0 <= k < |r| && r[k] == x;
  }

  // ---------------------------------------------------------------------
  // Properties of the location detector
  // ---------------------------------------------------------------------

  lemma LocationScanInv(patternHits: seq<string>, tokens: seq<string>, names: seq<string>)
    ensures ScanInv(tokens, LocationMatcher(names), patternHits, LocationScan(patternHits, tokens, names))
  {
    var m := LocationMatcher(names);
    var s0 := ScanState({}, patternHits, []);
    PassInv(tokens, m, patternHits, 4, 0, s0);
    var s4 := Pass(tokens, m, 4, 0, s0);
    PassInv(tokens, m, patternHits, 3, 0, s4);
    var s3 := Pass(tokens, m, 3, 0, s4);
    PassInv(tokens, m, patternHits, 2, 0, s3);
    PassInv(tokens, m, patternHits, 1, 0, Pass(tokens, m, 2, 0, s3));
  }

  /**
   * Every pattern hit is kept; every other detected location is the text of
   * a run of tokens equal, up to case, to a known location name; the
   * accepted runs never overlap.
   */
  lemma PiiLocationsSound(patternHits: seq<string>, tokens: seq<string>, names: seq<string>)
    ensures var st := LocationScan(patternHits, tokens, names);
            var locations := PiiLocations(patternHits, tokens, names);
            && Distinct(locations)
            && PairwiseDisjoint(st.accepted)
            && (forall h :: h in patternHits ==> h in locations)
            && forall x :: x in locations && x !in patternHits ==>
                 Lower(x) !in StopWords && exists j :: 0 <= j < |names| && Lower(names[j]) == Lower(x)
  {
    var st := LocationScan(patternHits, tokens, names);
    var m := LocationMatcher(names);
    LocationScanInv(patternHits, tokens, names);
    var found := st.found;
    assert found == patternHits + FoundBy(tokens, m, st.accepted);
    assert forall h :: h in patternHits ==> h in found;
    forall x | x in found && x !in patternHits
      ensures Lower(x) !in StopWords && exists j :: 0 <= j < |names| && Lower(names[j]) == Lower(x)
    {
      FoundByMember(tokens, m, st.accepted, x);
      var k :| 0 <= k < |st.accepted| && x in m(WindowText(tokens, st.accepted[k]));
    }
  }
}
