/**
 * The field reshaper: the language model's fields are turned into the
 * filter structure the post query expects. Per field, the intents fold
 * into a value prefix, a skip flag and a status; each value resolves
 * through the chosen options' ids, then the PII mappings, then passes
 * through; values of repeated keys are concatenated, and the status of
 * the last field is placed at the post type's status key.
 */
module Reshaper {
  import opened Wrappers
  import opened PhpStr
  import opened Assoc
  import opened LlmFields
  import opened Selection

  /** `['locations' => …, 'users' => …, 'posts' => …]`, searched in that order. */
  datatype MultipleOptions = MultipleOptions(locations: seq<Reference>, users: seq<Reference>, posts: seq<Reference>)

  function AllReferences(mo: MultipleOptions): seq<Reference>
  {
    mo.locations + mo.users + mo.posts
  }

  // ---------------------------------------------------------------------
  // extract_multiple_option_by_key_value
  // ---------------------------------------------------------------------

  /** The first index whose pii_prompt is v. */
  function MatchIndex(g: seq<Reference>, v: string): (r: Option<nat>)
    ensures r.None? <==> forall k :: 0 <= k < |g| ==> g[k].piiPrompt != v
    ensures r.Some? ==> r.value < |g| && g[r.value].piiPrompt == v
                        && forall j :: 0 <= j < r.value ==> g[j].piiPrompt != v
    decreases |g|
  {
    if |g| == 0 then None
    else if g[0].piiPrompt == v then Some(0)
    else
      var rest := MatchIndex(g[1..], v);
      assert forall k :: 0 <= k < |g[1..]| ==> g[1..][k] == g[k + 1];
      if rest.Some? then Some(rest.value + 1) else None
  }

  /** What the lookup yields: an option array, `[]`, or a TypeError. */
  datatype Extracted = Found(option: Reference) | NotFound | Crash

  /**
   * As written: the first group with any match is filtered with its keys
   * kept, and element 0 of the filtered array is returned. When the first
   * match is not at index 0 of its group, that element is undefined; the
   * null it reads is returned from a function declared to return an
   * array, which PHP rejects with a TypeError.
   */
  function ExtractMultipleOption(mo: MultipleOptions, v: string): (r: Extracted)
    ensures r.Found? ==> r.option.piiPrompt == v && r.option in AllReferences(mo)
    ensures r.NotFound? <==> forall x :: x in AllReferences(mo) ==> x.piiPrompt != v
  {
    var g := if MatchIndex(mo.locations, v).Some? then mo.locations
             else if MatchIndex(mo.users, v).Some? then mo.users
             else mo.posts;
    match MatchIndex(g, v)
    case None =>
      assert forall x :: x in AllReferences(mo) ==> x in mo.locations || x in mo.users || x in mo.posts;
      NotFound
    case Some(k) => if k == 0 then Found(g[0]) else Crash
  }

  /**
   * Corrected: the first reference whose pii_prompt is v, searching
   * locations, then users, then posts.
   */
  function FirstOptionMatch(mo: MultipleOptions, v: string): (r: Option<Reference>)
    ensures r.None? <==> forall x :: x in AllReferences(mo) ==> x.piiPrompt != v
    ensures r.Some? ==> exists i :: 0 <= i < |AllReferences(mo)| && AllReferences(mo)[i] == r.value
                                    && r.value.piiPrompt == v
                                    && forall j :: 0 <= j < i ==> AllReferences(mo)[j].piiPrompt != v
  {
    var all := AllReferences(mo);
    match MatchIndex(all, v)
    case None => None
    case Some(k) => Some(all[k])
  }

  /** The first match in a + b is the first in a, else the first in b shifted past a. */
  lemma {:induction false} MatchIndexAppend(a: seq<Reference>, b: seq<Reference>, v: string)
    ensures MatchIndex(a + b, v)
            == if MatchIndex(a, v).Some? then MatchIndex(a, v)
               else if MatchIndex(b, v).Some? then Some(|a| + MatchIndex(b, v).value)
               else None
  {
    var ab := a + b;
    var ma := MatchIndex(a, v);
    var mb := MatchIndex(b, v);
    if ma.Some? {
      forall j | 0 <= j < ma.value ensures ab[j].piiPrompt != v {
        assert ab[j] == a[j];
      }
      assert ab[ma.value] == a[ma.value];
      MatchIndexAt(ab, v, ma.value);
    } else if mb.Some? {
      var i := |a| + mb.value;
      forall j | 0 <= j < i ensures ab[j].piiPrompt != v {
        if j < |a| {
          assert ab[j] == a[j];
        } else {
          assert ab[j] == b[j - |a|];
        }
      }
      assert ab[i] == b[mb.value];
      MatchIndexAt(ab, v, i);
    } else {
      forall k | 0 <= k < |ab| ensures ab[k].piiPrompt != v {
        if k < |a| {
          assert ab[k] == a[k];
        } else {
          assert ab[k] == b[k - |a|];
        }
      }
    }
  }

  /** The first matching index is the one MatchIndex finds. */
  lemma MatchIndexAt(g: seq<Reference>, v: string, i: nat)
    requires i < |g| && g[i].piiPrompt == v
    requires forall j :: 0 <= j < i ==> g[j].piiPrompt != v
    ensures MatchIndex(g, v) == Some(i)
  {
    var r := MatchIndex(g, v);
    assert r.Some?;
    assert r.value == i;
  }

  /** Where the lookup as written does not crash, it agrees with the corrected one. */
  lemma {:induction false} ExtractAgrees(mo: MultipleOptions, v: string)
    ensures ExtractMultipleOption(mo, v).Found?
            ==> FirstOptionMatch(mo, v) == Some(ExtractMultipleOption(mo, v).option)
    ensures ExtractMultipleOption(mo, v).NotFound? <==> FirstOptionMatch(mo, v).None?
  {
    if ExtractMultipleOption(mo, v).Found? {
      ExtractFoundAgrees(mo, v);
    }
  }

  lemma {:induction false} ExtractFoundAgrees(mo: MultipleOptions, v: string)
    requires ExtractMultipleOption(mo, v).Found?
    ensures MatchIndex(AllReferences(mo), v).Some?
    ensures AllReferences(mo)[MatchIndex(AllReferences(mo), v).value] == ExtractMultipleOption(mo, v).option
  {
    var lu := mo.locations + mo.users;
    MatchIndexAppend(mo.locations, mo.users, v);
    MatchIndexAppend(lu, mo.posts, v);
    if MatchIndex(mo.locations, v).None? && MatchIndex(mo.users, v).Some? {
      assert lu[|mo.locations|] == mo.users[0];
    }
  }

  /**
   * The lookup as written crashes exactly when some reference matches but
   * the first group holding a match does not hold it at index 0.
   */
  lemma ExtractCrashes(mo: MultipleOptions, v: string)
    ensures ExtractMultipleOption(mo, v).Crash?
            <==> var g := if MatchIndex(mo.locations, v).Some? then mo.locations
                          else if MatchIndex(mo.users, v).Some? then mo.users
                          else mo.posts;
                 MatchIndex(g, v).Some? && g[0].piiPrompt != v
  {
  }

  /**
   * Two chosen locations: the field value naming the second one makes the
   * lookup as written crash, while the corrected lookup finds the second
   * reference with its chosen id.
   */
  lemma ExtractCrashExample()
    ensures var refs := SelectionMappings([Choice("Paris", "10", "Paris"), Choice("Lyon", "20", "Lyon")], [], []).0;
            var mo := MultipleOptions(refs, [], []);
            && refs == [Reference("Paris", "Paris", [Candidate("10", "Paris")]),
                        Reference("Lyon", "Lyon", [Candidate("20", "Lyon")])]
            && ExtractMultipleOption(mo, "Lyon") == Crash
            && FirstOptionMatch(mo, "Lyon") == Some(Reference("Lyon", "Lyon", [Candidate("20", "Lyon")]))
  {
    TwoLocationsSelected();
    SecondLocationLookup();
  }

  lemma TwoLocationsSelected()
    ensures SelectionMappings([Choice("Paris", "10", "Paris"), Choice("Lyon", "20", "Lyon")], [], []).0
            == [Reference("Paris", "Paris", [Candidate("10", "Paris")]),
                Reference("Lyon", "Lyon", [Candidate("20", "Lyon")])]
  {
    var c := [Choice("Paris", "10", "Paris"), Choice("Lyon", "20", "Lyon")];
    var paris := Reference("Paris", "Paris", [Candidate("10", "Paris")]);
    var lyon := Reference("Lyon", "Lyon", [Candidate("20", "Lyon")]);
    var c1 := [Choice("Paris", "10", "Paris")];
    assert c[..1] == c1 && c1[..0] == [];
    assert PiiPromptOf([], "Paris") == "Paris" && PiiPromptOf([], "Lyon") == "Lyon";
    var s1 := SelectionMappings(c1, [], []);
    assert SelectionMappings(c1[..0], [], []) == ([], []);
    assert s1.1 == ["Paris"] && s1.0 == [paris];
    assert "Lyon"[0] != "Paris"[0];
    assert Taken(c[1], ["Paris"]);
    assert [paris] + [lyon] == [paris, lyon];
  }

  lemma SecondLocationLookup()
    ensures var lyon := Reference("Lyon", "Lyon", [Candidate("20", "Lyon")]);
            var mo := MultipleOptions([Reference("Paris", "Paris", [Candidate("10", "Paris")]), lyon], [], []);
            ExtractMultipleOption(mo, "Lyon") == Crash && FirstOptionMatch(mo, "Lyon") == Some(lyon)
  {
    var paris := Reference("Paris", "Paris", [Candidate("10", "Paris")]);
    var lyon := Reference("Lyon", "Lyon", [Candidate("20", "Lyon")]);
    var refs := [paris, lyon];
    assert "Lyon"[0] != "Paris"[0];
    assert refs[1..] == [lyon];
    assert MatchIndex(refs[1..], "Lyon") == Some(0);
    assert MatchIndex(refs, "Lyon") == Some(1);
    assert AllReferences(MultipleOptions(refs, [], [])) == refs;
  }

  // ---------------------------------------------------------------------
  // extract_reshaped_field_values: intents
  // ---------------------------------------------------------------------

  /** The state the intent loop threads: `$status`, `$prefix`, `$loop_values`. */
  datatype IntentState = IntentState(status: string, prefix: string, loop: bool)

  predicate IsStatusIntent(i: string)
  {
    i in ["STATUS_NEW", "STATUS_ACTIVE", "STATUS_INACTIVE", "STATUS_NONE", "STATUS_CLOSED",
          "STATUS_UNASSIGNABLE", "STATUS_UNASSIGNED", "STATUS_ASSIGNED", "STATUS_PAUSED"]
  }

  /** NOT_SET and the date intents (a date feature that is not implemented) turn values off. */
  predicate StopsValues(i: string)
  {
    i in ["NOT_SET", "DATES_BETWEEN", "DATES_AFTER", "DATES_BEFORE",
          "DATES_PREVIOUS_YEARS", "DATES_PREVIOUS_MONTHS", "DATES_PREVIOUS_DAYS"]
  }

  function ApplyIntent(st: IntentState, i: string): IntentState
  {
    if StopsValues(i) then st.(loop := false)
    else if i == "ANY" then st.(prefix := st.prefix + "*")
    else if i == "NOT_EQUALS" then st.(prefix := "-" + st.prefix)
    else if IsStatusIntent(i) then st.(status := i)
    else st
  }

  /** The intents folded in order from `('', '', true)`. */
  function FoldIntents(intents: seq<string>): IntentState
    decreases |intents|
  {
    if |intents| == 0 then IntentState("", "", true)
    else ApplyIntent(FoldIntents(intents[..|intents| - 1]), intents[|intents| - 1])
  }

  function Repeat(c: char, n: nat): (r: string)
    ensures |r| == n && forall k :: 0 <= k < n ==> r[k] == c
  {
    if n == 0 then [] else Repeat(c, n - 1) + [c]
  }

  function Occurrences(x: string, s: seq<string>): nat
    decreases |s|
  {
    if |s| == 0 then 0 else Occurrences(x, s[..|s| - 1]) + (if s[|s| - 1] == x then 1 else 0)
  }

  /** The prefix is one `-` per NOT_EQUALS followed by one `*` per ANY, whatever their order. */
  lemma {:induction false} FoldIntentsPrefix(intents: seq<string>)
    ensures FoldIntents(intents).prefix
            == Repeat('-', Occurrences("NOT_EQUALS", intents)) + Repeat('*', Occurrences("ANY", intents))
    decreases |intents|
  {
    if |intents| > 0 {
      var init := intents[..|intents| - 1];
      FoldIntentsPrefix(init);
      var i := intents[|intents| - 1];
      ApplyIntentPrefix(FoldIntents(init), i);
      PrefixStep(FoldIntents(init).prefix, Occurrences("NOT_EQUALS", init), Occurrences("ANY", init), i);
    }
  }

  lemma PrefixStep(p: string, a: nat, b: nat, i: string)
    requires p == Repeat('-', a) + Repeat('*', b)
    ensures (if i == "ANY" then p + "*" else if i == "NOT_EQUALS" then "-" + p else p)
            == Repeat('-', a + if i == "NOT_EQUALS" then 1 else 0) + Repeat('*', b + if i == "ANY" then 1 else 0)
  {
    if i == "NOT_EQUALS" {
      RepeatCons('-', a);
    }
  }

  lemma {:induction false} RepeatCons(c: char, n: nat)
    ensures [c] + Repeat(c, n) == Repeat(c, n + 1)
  {
    assert ([c] + Repeat(c, n))[0] == c;
  }

  lemma ApplyIntentPrefix(st: IntentState, i: string)
    ensures ApplyIntent(st, i).prefix
            == if i == "ANY" then st.prefix + "*" else if i == "NOT_EQUALS" then "-" + st.prefix else st.prefix
  {
    if StopsValues(i) {
      assert i != "ANY" && i != "NOT_EQUALS";
    }
  }

  /** An intent sets the status exactly when it is a status intent, and stops values exactly when it is a stop intent. */
  lemma ApplyIntentFields(st: IntentState, i: string)
    ensures ApplyIntent(st, i).status == if IsStatusIntent(i) then i else st.status
    ensures ApplyIntent(st, i).loop == (st.loop && !StopsValues(i))
    ensures IsStatusIntent(i) ==> i != ""
  {
  }

  /** Values are emitted exactly when no intent is NOT_SET or a date intent. */
  lemma {:induction false} FoldIntentsLoop(intents: seq<string>)
    ensures FoldIntents(intents).loop <==> forall k :: 0 <= k < |intents| ==> !StopsValues(intents[k])
    decreases |intents|
  {
    if |intents| > 0 {
      var init := intents[..|intents| - 1];
      FoldIntentsLoop(init);
      ApplyIntentFields(FoldIntents(init), intents[|intents| - 1]);
      assert forall k :: 0 <= k < |init| ==> init[k] == intents[k];
    }
  }

  /** The status is "" exactly when there is no status intent. */
  lemma {:induction false} FoldIntentsNoStatus(intents: seq<string>)
    ensures FoldIntents(intents).status == "" <==> forall k :: 0 <= k < |intents| ==> !IsStatusIntent(intents[k])
    decreases |intents|
  {
    if |intents| > 0 {
      var init := intents[..|intents| - 1];
      FoldIntentsNoStatus(init);
      ApplyIntentFields(FoldIntents(init), intents[|intents| - 1]);
      assert forall k :: 0 <= k < |init| ==> init[k] == intents[k];
    }
  }

  /** The last status intent, or "" when there is none. */
  function LastStatus(intents: seq<string>): string
    decreases |intents|
  {
    if |intents| == 0 then ""
    else if IsStatusIntent(intents[|intents| - 1]) then intents[|intents| - 1]
    else LastStatus(intents[..|intents| - 1])
  }

  lemma {:induction false} FoldIntentsStatus(intents: seq<string>)
    ensures FoldIntents(intents).status == LastStatus(intents)
    decreases |intents|
  {
    if |intents| > 0 {
      var init := intents[..|intents| - 1];
      FoldIntentsStatus(init);
      ApplyIntentFields(FoldIntents(init), intents[|intents| - 1]);
    }
  }

  lemma {:induction false} LastStatusAt(intents: seq<string>) returns (k: nat)
    requires LastStatus(intents) != ""
    ensures k < |intents| && intents[k] == LastStatus(intents) && IsStatusIntent(intents[k])
    ensures forall j :: k < j < |intents| ==> !IsStatusIntent(intents[j])
    decreases |intents|
  {
    var n := |intents| - 1;
    if IsStatusIntent(intents[n]) {
      k := n;
    } else {
      var init := intents[..n];
      k := LastStatusAt(init);
      assert forall j :: k < j < n ==> intents[j] == init[j];
    }
  }

  /** Otherwise it is the last status intent: later intents change it no further. */
  lemma FoldIntentsLastStatus(intents: seq<string>) returns (k: nat)
    requires FoldIntents(intents).status != ""
    ensures k < |intents| && intents[k] == FoldIntents(intents).status && IsStatusIntent(intents[k])
    ensures forall j :: k < j < |intents| ==> !IsStatusIntent(intents[j])
  {
    FoldIntentsStatus(intents);
    k := LastStatusAt(intents);
  }

  // ---------------------------------------------------------------------
  // extract_reshaped_field_values: values
  // ---------------------------------------------------------------------

  /**
   * The hit for one value as written: the first option id of what the
   * lookup as written returns, else the value's PII mapping, else the
   * value; the lookup's TypeError interrupts it.
   */
  function HitAsWritten(mo: MultipleOptions, mappings: seq<(string, string)>, v: string): Result<string>
  {
    match ExtractMultipleOption(mo, v)
    case Crash => Failure("TypeError: extract_multiple_option_by_key_value(): Return value must be of type array, null returned")
    case Found(ref) => if |ref.options| > 0 then Success(ref.options[0].id) else Success(Unmask(mappings, v))
    case NotFound => Success(Unmask(mappings, v))
  }

  /**
   * The hit for one value with the corrected lookup: the first option id
   * of the first reference whose pii_prompt is the value, else the value's
   * PII mapping, else the value.
   */
  function Hit(mo: MultipleOptions, mappings: seq<(string, string)>, v: string): string
  {
    match FirstOptionMatch(mo, v)
    case Some(ref) => if |ref.options| > 0 then ref.options[0].id else Unmask(mappings, v)
    case None => Unmask(mappings, v)
  }

  /** The hit as written fails exactly when the lookup crashes. */
  lemma HitFails(mo: MultipleOptions, mappings: seq<(string, string)>, v: string)
    ensures HitAsWritten(mo, mappings, v).Failure? <==> ExtractMultipleOption(mo, v).Crash?
  {
  }

  /** Where the hit as written does not crash, it is the corrected hit. */
  lemma HitResolution(mo: MultipleOptions, mappings: seq<(string, string)>, v: string)
    requires HitAsWritten(mo, mappings, v).Success?
    ensures HitAsWritten(mo, mappings, v).value == Hit(mo, mappings, v)
  {
    ExtractAgrees(mo, v);
  }

  /**
   * Without any options, as on the success path of the pause rule, the
   * hit as written never crashes: every value is unmasked.
   */
  lemma HitWithoutOptions(mappings: seq<(string, string)>, v: string)
    ensures HitAsWritten(MultipleOptions([], [], []), mappings, v) == Success(Unmask(mappings, v))
    ensures Hit(MultipleOptions([], [], []), mappings, v) == Unmask(mappings, v)
  {
  }

  /** The hit of every value, in order. */
  function HitsOf(values: seq<string>, mo: MultipleOptions, mappings: seq<(string, string)>): (r: seq<string>)
    ensures |r| == |values| && forall k :: 0 <= k < |values| ==> r[k] == Hit(mo, mappings, values[k])
  {
    seq(|values|, k requires 0 <= k < |values| => Hit(mo, mappings, values[k]))
  }

  /** The hits, each behind the prefix, in order. */
  function Prefixed(hits: seq<string>, prefix: string): seq<string>
    decreases |hits|
  {
    if |hits| == 0 then [] else Prefixed(hits[..|hits| - 1], prefix) + [prefix + hits[|hits| - 1]]
  }

  /** Each hit becomes prefix + hit, one for one and in order. */
  lemma {:induction false} PrefixedPointwise(hits: seq<string>, prefix: string)
    ensures var vs := Prefixed(hits, prefix);
            |vs| == |hits| && forall k :: 0 <= k < |hits| ==> vs[k] == prefix + hits[k]
    decreases |hits|
  {
    if |hits| > 0 {
      var init := hits[..|hits| - 1];
      PrefixedPointwise(init, prefix);
      assert forall k :: 0 <= k < |init| ==> init[k] == hits[k];
    }
  }

  /** Each value of a field becomes prefix + its hit, one for one and in order. */
  lemma ResolvedPointwise(values: seq<string>, mo: MultipleOptions, mappings: seq<(string, string)>, prefix: string)
    ensures var vs := Prefixed(HitsOf(values, mo, mappings), prefix);
            |vs| == |values| && forall k :: 0 <= k < |values| ==> vs[k] == prefix + Hit(mo, mappings, values[k])
  {
    PrefixedPointwise(HitsOf(values, mo, mappings), prefix);
  }

  /** `['status' => …, 'values' => …]` for one field. */
  function ExtractedValues(value: FieldValue, intent: FieldValue, mo: MultipleOptions,
                           mappings: seq<(string, string)>): (string, seq<string>)
  {
    var st := FoldIntents(AsList(intent));
    (st.status, if st.loop then Prefixed(HitsOf(AsList(value), mo, mappings), st.prefix) else [])
  }

  method ExtractReshapedFieldValues(value: FieldValue, intent: FieldValue, mo: MultipleOptions,
                                    mappings: seq<(string, string)>)
    returns (r: (string, seq<string>))
    ensures r == ExtractedValues(value, intent, mo, mappings)
  {
    var status, prefix, loop := ReadIntents(AsList(intent));
    if !loop {
      return (status, []);
    }
    var vs := ResolveValues(AsList(value), mo, mappings, prefix);
    r := (status, vs);
  }

  /** The value loop of extract_reshaped_field_values. */
  method ResolveValues(values: seq<string>, mo: MultipleOptions, mappings: seq<(string, string)>,
                       prefix: string)
    returns (reshaped: seq<string>)
    ensures reshaped == Prefixed(HitsOf(values, mo, mappings), prefix)
  {
    ghost var hits := HitsOf(values, mo, mappings);
    reshaped := [];
    for k := 0 to |values|
      invariant reshaped == Prefixed(hits[..k], prefix)
    {
      assert hits[..k + 1][..k] == hits[..k];
      var hit := Hit(mo, mappings, values[k]);
      reshaped := reshaped + [prefix + hit];
    }
    assert hits[..|values|] == hits;
  }

  /** The intent loop of extract_reshaped_field_values. */
  method ReadIntents(intents: seq<string>) returns (status: string, prefix: string, loop: bool)
    ensures IntentState(status, prefix, loop) == FoldIntents(intents)
  {
    status, prefix, loop := "", "", true;
    for k := 0 to |intents|
      invariant IntentState(status, prefix, loop) == FoldIntents(intents[..k])
    {
      assert intents[..k + 1][..k] == intents[..k];
      var i := intents[k];
      ghost var before := IntentState(status, prefix, loop);
      if StopsValues(i) {
        loop := false;
      } else if i == "ANY" {
        prefix := prefix + "*";
      } else if i == "NOT_EQUALS" {
        prefix := "-" + prefix;
      } else if IsStatusIntent(i) {
        status := i;
      }
      assert IntentState(status, prefix, loop) == ApplyIntent(before, i);
    }
    assert intents[..|intents|] == intents;
  }


  // ---------------------------------------------------------------------
  // reshape_fields_to_required_list_post_query_structure
  // ---------------------------------------------------------------------

  /** `isset( $field['field_key'], $field['field_value'] )`. */
  predicate Usable(f: LlmField)
  {
    f.key.Some? && f.value.Some?
  }

  function IntentOf(f: LlmField): FieldValue
  {
    f.intent.GetOr(Scalar("EQUALS"))
  }

  /** The reshaped fields and the status after the given fields. */
  function FoldFields(fields: seq<LlmField>, mo: MultipleOptions, mappings: seq<(string, string)>)
    : (seq<(string, seq<string>)>, string)
    decreases |fields|
  {
    if |fields| == 0 then ([], "")
    else
      var f := fields[|fields| - 1];
      var acc := FoldFields(fields[..|fields| - 1], mo, mappings);
      if !Usable(f) then acc
      else
        var ev := ExtractedValues(f.value.value, IntentOf(f), mo, mappings);
        var key := f.key.value;
        (Put(acc.0, key, Get(acc.0, key).GetOr([]) + ev.1), ev.0)
  }

  /** `STATUS_X` to the status value `x`. */
  function StatusValue(status: string): (r: Option<string>)
    ensures r.Some? <==> IsStatusIntent(status)
  {
    match status
    case "STATUS_NEW" => Some("new")
    case "STATUS_ACTIVE" => Some("active")
    case "STATUS_INACTIVE" => Some("inactive")
    case "STATUS_NONE" => Some("none")
    case "STATUS_CLOSED" => Some("closed")
    case "STATUS_UNASSIGNABLE" => Some("unassignable")
    case "STATUS_UNASSIGNED" => Some("unassigned")
    case "STATUS_ASSIGNED" => Some("assigned")
    case "STATUS_PAUSED" => Some("paused")
    case _ => None
  }

  /** The value is the intent's name after `STATUS_`, lower-cased. */
  lemma StatusValueLowered(status: string)
    requires StatusValue(status).Some?
    ensures "STATUS_" <= status && StatusValue(status).value == Lower(status[7..])
  {
    var v := StatusValue(status).value;
    assert |v| == |status| - 7;
    forall k | 0 <= k < |v| ensures v[k] == LowerChar(status[7 + k]) {
    }
  }

  /** The status placed at the configured status key, when there is a status and a key. */
  function WithStatus(reshaped: seq<(string, seq<string>)>, status: string, statusKey: Option<string>)
    : seq<(string, seq<string>)>
  {
    if !IsEmptyStr(status) && statusKey.Some? && !IsEmptyStr(statusKey.value) && StatusValue(status).Some?
    then Put(reshaped, statusKey.value, [StatusValue(status).value])
    else reshaped
  }

  /**
   * The query structure, one `[key => values]` entry per key; `statusKey`
   * is the post type's configured status field key.
   */
  function ReshapedQuery(fields: seq<LlmField>, mo: MultipleOptions, mappings: seq<(string, string)>,
                         statusKey: Option<string>): seq<(string, seq<string>)>
  {
    var acc := FoldFields(fields, mo, mappings);
    WithStatus(acc.0, acc.1, statusKey)
  }

  method ReshapeFieldsToQuery(fields: seq<LlmField>, mo: MultipleOptions, mappings: seq<(string, string)>,
                              statusKey: Option<string>)
    returns (reshaped: seq<(string, seq<string>)>)
    ensures reshaped == ReshapedQuery(fields, mo, mappings, statusKey)
  {
    reshaped := [];
    var status := "";
    for k := 0 to |fields|
      invariant FoldFields(fields[..k], mo, mappings) == (reshaped, status)
    {
      assert fields[..k + 1][..k] == fields[..k];
      var f := fields[k];
      if f.key.Some? && f.value.Some? {
        var ev := ExtractReshapedFieldValues(f.value.value, f.intent.GetOr(Scalar("EQUALS")), mo, mappings);
        var key := f.key.value;
        var current := Get(reshaped, key);
        var existing := if current.Some? then current.value else [];
        reshaped := Put(reshaped, key, existing + ev.1);
        status := ev.0;
      }
    }
    assert fields[..|fields|] == fields;
    if !IsEmptyStr(status) && statusKey.Some? && !IsEmptyStr(statusKey.value) {
      var value := StatusValue(status);
      if value.Some? {
        reshaped := Put(reshaped, statusKey.value, [value.value]);
      }
    }
  }

  /** The values the usable fields with key k contribute, in field order. */
  function ValuesFor(fields: seq<LlmField>, k: string, mo: MultipleOptions, mappings: seq<(string, string)>)
    : seq<string>
    decreases |fields|
  {
    if |fields| == 0 then []
    else
      var f := fields[|fields| - 1];
      ValuesFor(fields[..|fields| - 1], k, mo, mappings)
      + (if Usable(f) && f.key.value == k then ExtractedValues(f.value.value, IntentOf(f), mo, mappings).1 else [])
  }

  /** Some usable field has key k. */
  predicate KeyUsed(fields: seq<LlmField>, k: string)
  {
    exists f :: f in fields && Usable(f) && f.key.value == k
  }

  /**
   * Each key of a usable field appears once, and reads the values of all
   * the usable fields with that key, concatenated in field order; no
   * other key appears.
   */
  lemma {:induction false} FoldFieldsEntries(fields: seq<LlmField>, mo: MultipleOptions,
                                             mappings: seq<(string, string)>, k: string)
    ensures var acc := FoldFields(fields, mo, mappings).0;
            Get(acc, k) == if KeyUsed(fields, k) then Some(ValuesFor(fields, k, mo, mappings)) else None
    decreases |fields|
  {
    if |fields| > 0 {
      var init := fields[..|fields| - 1];
      var f := fields[|fields| - 1];
      FoldFieldsEntries(init, mo, mappings, k);
      assert forall x :: x in fields <==> x in init || x == f;
      var acc0 := FoldFields(init, mo, mappings).0;
      assert KeyUsed(fields, k) <==> KeyUsed(init, k) || (Usable(f) && f.key.value == k);
      if Usable(f) {
        var ev := ExtractedValues(f.value.value, IntentOf(f), mo, mappings);
        var acc := FoldFields(fields, mo, mappings).0;
        assert acc == Put(acc0, f.key.value, Get(acc0, f.key.value).GetOr([]) + ev.1);
        PutGet(acc0, f.key.value, Get(acc0, f.key.value).GetOr([]) + ev.1, k);
        if f.key.value == k {
          if !KeyUsed(init, k) {
            NoValuesForUnused(init, k, mo, mappings);
          }
          assert ValuesFor(fields, k, mo, mappings) == ValuesFor(init, k, mo, mappings) + ev.1;
        } else {
          assert ValuesFor(fields, k, mo, mappings) == ValuesFor(init, k, mo, mappings);
        }
      } else {
        assert ValuesFor(fields, k, mo, mappings) == ValuesFor(init, k, mo, mappings);
      }
    }
  }

  lemma {:induction false} NoValuesForUnused(fields: seq<LlmField>, k: string, mo: MultipleOptions,
                                             mappings: seq<(string, string)>)
    requires !KeyUsed(fields, k)
    ensures ValuesFor(fields, k, mo, mappings) == []
    decreases |fields|
  {
    if |fields| > 0 {
      var init := fields[..|fields| - 1];
      assert forall x :: x in init ==> x in fields;
      NoValuesForUnused(init, k, mo, mappings);
    }
  }

  /** No key is emitted twice. */
  lemma {:induction false} FoldFieldsDistinct(fields: seq<LlmField>, mo: MultipleOptions,
                                              mappings: seq<(string, string)>)
    ensures DistinctKeys(FoldFields(fields, mo, mappings).0)
    decreases |fields|
  {
    if |fields| > 0 {
      var init := fields[..|fields| - 1];
      var f := fields[|fields| - 1];
      FoldFieldsDistinct(init, mo, mappings);
      if Usable(f) {
        var acc0 := FoldFields(init, mo, mappings).0;
        var ev := ExtractedValues(f.value.value, IntentOf(f), mo, mappings);
        PutDistinct(acc0, f.key.value, Get(acc0, f.key.value).GetOr([]) + ev.1);
      }
    }
  }

  /** The last usable field, if any. */
  function LastUsable(fields: seq<LlmField>): (r: Option<LlmField>)
    ensures r.Some? ==> r.value in fields && Usable(r.value)
    ensures r.None? <==> forall f :: f in fields ==> !Usable(f)
    decreases |fields|
  {
    if |fields| == 0 then None
    else if Usable(fields[|fields| - 1]) then Some(fields[|fields| - 1])
    else
      assert forall x :: x in fields <==> x in fields[..|fields| - 1] || x == fields[|fields| - 1];
      LastUsable(fields[..|fields| - 1])
  }

  /** The status comes from the last usable field alone (an earlier field's status is discarded). */
  lemma {:induction false} FoldFieldsStatus(fields: seq<LlmField>, mo: MultipleOptions,
                                            mappings: seq<(string, string)>)
    ensures var status := FoldFields(fields, mo, mappings).1;
            var last := LastUsable(fields);
            status == if last.Some? then FoldIntents(AsList(IntentOf(last.value))).status else ""
    decreases |fields|
  {
    if |fields| > 0 {
      FoldFieldsStatus(fields[..|fields| - 1], mo, mappings);
    }
  }

  /**
   * A status value, when placed, replaces whatever the status key held;
   * every other key keeps its values.
   */
  lemma WithStatusGet(reshaped: seq<(string, seq<string>)>, status: string, statusKey: Option<string>, k: string)
    ensures var placed := !IsEmptyStr(status) && statusKey.Some? && !IsEmptyStr(statusKey.value)
                          && IsStatusIntent(status);
            Get(WithStatus(reshaped, status, statusKey), k)
            == if placed && k == statusKey.value then Some([Lower(status[7..])]) else Get(reshaped, k)
  {
    if !IsEmptyStr(status) && statusKey.Some? && !IsEmptyStr(statusKey.value) && StatusValue(status).Some? {
      StatusValueLowered(status);
      PutGet(reshaped, statusKey.value, [StatusValue(status).value], k);
    }
  }

  /**
   * The query: the configured status key holds the last usable field's
   * status value when it has one; every other key of a usable field holds
   * the values of all usable fields with that key, in field order; no
   * other key appears, and none twice.
   */
  lemma ReshapedQueryGet(fields: seq<LlmField>, mo: MultipleOptions, mappings: seq<(string, string)>,
                         statusKey: Option<string>, k: string)
    ensures var last := LastUsable(fields);
            var status := if last.Some? then FoldIntents(AsList(IntentOf(last.value))).status else "";
            var placed := !IsEmptyStr(status) && statusKey.Some? && !IsEmptyStr(statusKey.value)
                          && IsStatusIntent(status);
            Get(ReshapedQuery(fields, mo, mappings, statusKey), k)
            == if placed && k == statusKey.value then Some([Lower(status[7..])])
               else if KeyUsed(fields, k) then Some(ValuesFor(fields, k, mo, mappings))
               else None
    ensures DistinctKeys(ReshapedQuery(fields, mo, mappings, statusKey))
  {
    var acc := FoldFields(fields, mo, mappings);
    FoldFieldsStatus(fields, mo, mappings);
    FoldFieldsEntries(fields, mo, mappings, k);
    WithStatusGet(acc.0, acc.1, statusKey, k);
    FoldFieldsDistinct(fields, mo, mappings);
    if !IsEmptyStr(acc.1) && statusKey.Some? && !IsEmptyStr(statusKey.value) && StatusValue(acc.1).Some? {
      PutDistinct(acc.0, statusKey.value, [StatusValue(acc.1).value]);
    }
  }

  /** The keys of the usable fields, in field order, repetitions included. */
  function UsableKeys(fields: seq<LlmField>): seq<string>
    decreases |fields|
  {
    if |fields| == 0 then []
    else
      var f := fields[|fields| - 1];
      UsableKeys(fields[..|fields| - 1]) + (if Usable(f) then [f.key.value] else [])
  }

  /**
   * The reshaped keys come in first-insertion order: the first occurrence
   * of each usable field's key, in field order.
   */
  lemma {:induction false} FoldFieldsKeys(fields: seq<LlmField>, mo: MultipleOptions,
                                          mappings: seq<(string, string)>)
    ensures Keys(FoldFields(fields, mo, mappings).0) == Unique(UsableKeys(fields))
    decreases |fields|
  {
    if |fields| > 0 {
      var init := fields[..|fields| - 1];
      var f := fields[|fields| - 1];
      FoldFieldsKeys(init, mo, mappings);
      var s := UsableKeys(fields);
      if Usable(f) {
        var acc0 := FoldFields(init, mo, mappings).0;
        var ev := ExtractedValues(f.value.value, IntentOf(f), mo, mappings);
        var key := f.key.value;
        assert FoldFields(fields, mo, mappings).0 == Put(acc0, key, Get(acc0, key).GetOr([]) + ev.1);
        assert s == UsableKeys(init) + [key];
        assert s[..|s| - 1] == UsableKeys(init);
        assert Unique(s) == if key in Unique(UsableKeys(init)) then Unique(UsableKeys(init))
                            else Unique(UsableKeys(init)) + [key];
      } else {
        assert s == UsableKeys(init);
      }
    }
  }

  /**
   * The keys of the query: the usable fields' keys in first-insertion
   * order, then the status key at the end when a status is placed under a
   * key no usable field carries (a key already present keeps its place).
   */
  lemma ReshapedQueryKeys(fields: seq<LlmField>, mo: MultipleOptions, mappings: seq<(string, string)>,
                          statusKey: Option<string>)
    ensures var last := LastUsable(fields);
            var status := if last.Some? then FoldIntents(AsList(IntentOf(last.value))).status else "";
            var placed := !IsEmptyStr(status) && statusKey.Some? && !IsEmptyStr(statusKey.value)
                          && IsStatusIntent(status);
            var ks := Unique(UsableKeys(fields));
            Keys(ReshapedQuery(fields, mo, mappings, statusKey))
            == if placed && statusKey.value !in ks then ks + [statusKey.value] else ks
  {
    FoldFieldsStatus(fields, mo, mappings);
    FoldFieldsKeys(fields, mo, mappings);
  }

  // ---------------------------------------------------------------------
  // convert_filter_fields_from_obfuscated_to_plain (reached only from
  // list_posts and list_posts_with_selections, after their early returns)
  // ---------------------------------------------------------------------

  /** A list value unmasked item by item; any other value yields no items. */
  function UnmaskValue(v: FieldValue, mappings: seq<(string, string)>): (r: seq<string>)
    ensures v.Scalar? ==> r == []
    ensures v.List? ==> |r| == |v.items| && forall k :: 0 <= k < |r| ==> r[k] == Unmask(mappings, v.items[k])
  {
    if v.Scalar? then [] else seq(|v.items|, k requires 0 <= k < |v.items| => Unmask(mappings, v.items[k]))
  }

  /** The `key => value` entries of the filter fields, field after field. */
  function Flatten(filterFields: seq<seq<(string, FieldValue)>>): seq<(string, FieldValue)>
    decreases |filterFields|
  {
    if |filterFields| == 0 then []
    else Flatten(filterFields[..|filterFields| - 1]) + filterFields[|filterFields| - 1]
  }

  /** Each entry resets its key in place and fills it with its unmasked values. */
  function ConvertEntries(entries: seq<(string, FieldValue)>, mappings: seq<(string, string)>)
    : seq<(string, seq<string>)>
    decreases |entries|
  {
    if |entries| == 0 then []
    else
      var e := entries[|entries| - 1];
      Put(ConvertEntries(entries[..|entries| - 1], mappings), e.0, UnmaskValue(e.1, mappings))
  }

  method ConvertFilterFieldsFromObfuscatedToPlain(filterFields: seq<seq<(string, FieldValue)>>,
                                                  mappings: seq<(string, string)>)
    returns (fields: seq<(string, seq<string>)>)
    ensures fields == ConvertEntries(Flatten(filterFields), mappings)
  {
    fields := [];
    for i := 0 to |filterFields|
      invariant fields == ConvertEntries(Flatten(filterFields[..i]), mappings)
    {
      assert filterFields[..i + 1][..i] == filterFields[..i];
      fields := ConvertField(Flatten(filterFields[..i]), fields, filterFields[i], mappings);
    }
    assert filterFields[..|filterFields|] == filterFields;
  }

  /** The loop over one field's `key => value` entries. */
  method ConvertField(ghost before: seq<(string, FieldValue)>, fields0: seq<(string, seq<string>)>,
                      field: seq<(string, FieldValue)>, mappings: seq<(string, string)>)
    returns (fields: seq<(string, seq<string>)>)
    requires fields0 == ConvertEntries(before, mappings)
    ensures fields == ConvertEntries(before + field, mappings)
  {
    fields := fields0;
    assert before + field[..0] == before;
    for j := 0 to |field|
      invariant fields == ConvertEntries(before + field[..j], mappings)
    {
      ghost var es := before + field[..j + 1];
      SnocSlice(before, field, j);
      var (key, value) := field[j];
      var plain: seq<string> := [];
      if value.List? {
        plain := UnmaskItems(value.items, mappings);
      }
      assert plain == UnmaskValue(value, mappings);
      ConvertEntriesLast(es, mappings);
      fields := Put(fields, key, plain);
    }
    assert field[..|field|] == field;
  }

  /** The innermost loop: each item replaced by its PII mapping when it has one. */
  method UnmaskItems(items: seq<string>, mappings: seq<(string, string)>) returns (plain: seq<string>)
    ensures plain == UnmaskValue(List(items), mappings)
  {
    plain := [];
    for l := 0 to |items|
      invariant |plain| == l && forall k :: 0 <= k < l ==> plain[k] == Get(mappings, items[k]).GetOr(items[k])
    {
      var hit := Get(mappings, items[l]);
      var text := if hit.Some? then hit.value else items[l];
      plain := plain + [text];
    }
    UnmaskValueList(plain, items, mappings);
  }

  lemma UnmaskValueList(plain: seq<string>, items: seq<string>, mappings: seq<(string, string)>)
    requires |plain| == |items| && forall k :: 0 <= k < |items| ==> plain[k] == Get(mappings, items[k]).GetOr(items[k])
    ensures plain == UnmaskValue(List(items), mappings)
  {
  }

  lemma ConvertEntriesLast(es: seq<(string, FieldValue)>, mappings: seq<(string, string)>)
    requires |es| > 0
    ensures ConvertEntries(es, mappings)
            == Put(ConvertEntries(es[..|es| - 1], mappings), es[|es| - 1].0, UnmaskValue(es[|es| - 1].1, mappings))
  {
  }

  lemma SnocSlice<T>(a: seq<T>, b: seq<T>, j: nat)
    requires j < |b|
    ensures var es := a + b[..j + 1];
            |es| == |a| + j + 1 && es[..|es| - 1] == a + b[..j] && es[|es| - 1] == b[j]
  {
    var es := a + b[..j + 1];
    assert es[..|es| - 1] == a + b[..j];
  }

  /** The value of the last entry with key k, if any. */
  function LastValueFor(entries: seq<(string, FieldValue)>, k: string): Option<FieldValue>
    decreases |entries|
  {
    if |entries| == 0 then None
    else if entries[|entries| - 1].0 == k then Some(entries[|entries| - 1].1)
    else LastValueFor(entries[..|entries| - 1], k)
  }

  /**
   * Each key holds the unmasked values of its last occurrence (an earlier
   * occurrence is reset, a non-list last occurrence leaves it empty); keys
   * never occurring are absent, and no key is held twice.
   */
  lemma {:induction false} ConvertEntriesGet(entries: seq<(string, FieldValue)>, mappings: seq<(string, string)>, k: string)
    ensures Get(ConvertEntries(entries, mappings), k)
            == match LastValueFor(entries, k) case None => None case Some(v) => Some(UnmaskValue(v, mappings))
    decreases |entries|
  {
    if |entries| > 0 {
      var e := entries[|entries| - 1];
      ConvertEntriesGet(entries[..|entries| - 1], mappings, k);
      PutGet(ConvertEntries(entries[..|entries| - 1], mappings), e.0, UnmaskValue(e.1, mappings), k);
    }
  }

  lemma {:induction false} ConvertEntriesDistinct(entries: seq<(string, FieldValue)>, mappings: seq<(string, string)>)
    ensures DistinctKeys(ConvertEntries(entries, mappings))
    decreases |entries|
  {
    if |entries| > 0 {
      var e := entries[|entries| - 1];
      ConvertEntriesDistinct(entries[..|entries| - 1], mappings);
      PutDistinct(ConvertEntries(entries[..|entries| - 1], mappings), e.0, UnmaskValue(e.1, mappings));
    }
  }
}
