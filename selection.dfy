/**
 * Disambiguation bookkeeping of the prompt-to-filter pipeline: connection
 * phrases found in the model's fields are looked up in the location grid,
 * among users and among posts; each lookup yields a reference with its
 * candidate options; the flow pauses for the user to choose when any
 * reference has options; the user's choices come back as selections that
 * `reshape_selection_mappings` turns into single-option references.
 */
module Selection {
  import opened Wrappers
  import opened PhpStr
  import opened Assoc
  import opened LlmFields

  /** One `{id, label}` option. */
  datatype Candidate = Candidate(id: string, name: string)

  /**
   * `{prompt, pii_prompt, options}`: the plain phrase, the phrase as it
   * appears in the obfuscated fields, and the options found for it.
   */
  datatype Reference = Reference(prompt: string, piiPrompt: string, options: seq<Candidate>)

  /** A choice the user made for a paused reference: `{prompt, id, label}`. */
  datatype Choice = Choice(prompt: string, id: string, name: string)

  // ---------------------------------------------------------------------
  // parse_fields_for_connections
  // ---------------------------------------------------------------------

  predicate IsLocationType(t: string) { t == "location" || t == "location_meta" }

  predicate IsUserType(t: string) { t == "user_select" }

  /**
   * The field's type when it has a value and its key is a configured field
   * (a missing key is looked up as PHP looks up a null offset, as "").
   */
  function ConnectionType(field: LlmField, fieldTypes: seq<(string, string)>): Option<string>
  {
    if field.value.None? then None else Get(fieldTypes, field.key.GetOr(""))
  }

  /** The location phrases and the user phrases, in field order. */
  function Connections(fields: seq<LlmField>, fieldTypes: seq<(string, string)>)
    : (r: (seq<FieldValue>, seq<FieldValue>))
    decreases |fields|
  {
    if |fields| == 0 then ([], [])
    else
      var prev := Connections(fields[..|fields| - 1], fieldTypes);
      var f := fields[|fields| - 1];
      var t := ConnectionType(f, fieldTypes);
      (prev.0 + (if t.Some? && IsLocationType(t.value) then [f.value.value] else []),
       prev.1 + (if t.Some? && IsUserType(t.value) then [f.value.value] else []))
  }

  method ParseFieldsForConnections(fields: seq<LlmField>, fieldTypes: seq<(string, string)>)
    returns (locations: seq<FieldValue>, users: seq<FieldValue>)
    ensures (locations, users) == Connections(fields, fieldTypes)
  {
    locations, users := [], [];
    for k := 0 to |fields|
      invariant (locations, users) == Connections(fields[..k], fieldTypes)
    {
      assert fields[..k + 1][..k] == fields[..k];
      var f := fields[k];
      assert fields[..k + 1][k] == f;
      var t := if f.value.Some? then Get(fieldTypes, f.key.GetOr("")) else None;
      assert t == ConnectionType(f, fieldTypes);
      if t.Some? && IsLocationType(t.value) {
        locations := locations + [f.value.value];
      }
      if t.Some? && IsUserType(t.value) {
        users := users + [f.value.value];
      }
      var prev := Connections(fields[..k], fieldTypes);
      assert locations == prev.0 + (if t.Some? && IsLocationType(t.value) then [f.value.value] else []);
      assert users == prev.1 + (if t.Some? && IsUserType(t.value) then [f.value.value] else []);
      assert (locations, users) == Connections(fields[..k + 1], fieldTypes);
    }
    assert fields[..|fields|] == fields;
  }

  /** The field's value when the field is of a type p accepts. */
  predicate RoutedBy(f: LlmField, fieldTypes: seq<(string, string)>, p: string -> bool)
  {
    var t := ConnectionType(f, fieldTypes);
    t.Some? && p(t.value)
  }

  /**
   * Every location phrase is the value of a field of type location or
   * location_meta, and every such field's value is among the location
   * phrases.
   */
  lemma {:induction false} LocationsRouted(fields: seq<LlmField>, fieldTypes: seq<(string, string)>)
    ensures forall x :: x in Connections(fields, fieldTypes).0 <==>
              exists f :: f in fields && RoutedBy(f, fieldTypes, IsLocationType) && f.value == Some(x)
    decreases |fields|
  {
    if |fields| > 0 {
      var init := fields[..|fields| - 1];
      var last := fields[|fields| - 1];
      LocationsRouted(init, fieldTypes);
      assert forall f :: f in fields <==> f in init || f == last;
      forall x | exists f :: f in fields && RoutedBy(f, fieldTypes, IsLocationType) && f.value == Some(x)
        ensures x in Connections(fields, fieldTypes).0
      {
        var f :| f in fields && RoutedBy(f, fieldTypes, IsLocationType) && f.value == Some(x);
        if f != last {
          assert f in init;
        }
      }
    }
  }

  /** Likewise for user_select fields and the user phrases. */
  lemma {:induction false} UsersRouted(fields: seq<LlmField>, fieldTypes: seq<(string, string)>)
    ensures forall x :: x in Connections(fields, fieldTypes).1 <==>
              exists f :: f in fields && RoutedBy(f, fieldTypes, IsUserType) && f.value == Some(x)
    decreases |fields|
  {
    if |fields| > 0 {
      var init := fields[..|fields| - 1];
      var last := fields[|fields| - 1];
      UsersRouted(init, fieldTypes);
      assert forall f :: f in fields <==> f in init || f == last;
      forall x | exists f :: f in fields && RoutedBy(f, fieldTypes, IsUserType) && f.value == Some(x)
        ensures x in Connections(fields, fieldTypes).1
      {
        var f :| f in fields && RoutedBy(f, fieldTypes, IsUserType) && f.value == Some(x);
        if f != last {
          assert f in init;
        }
      }
    }
  }

  // ---------------------------------------------------------------------
  // parse_locations_for_ids, parse_connections_for_users / _post_names
  // ---------------------------------------------------------------------

  /** `$pii_mappings[$x] ?? $x`: the plain text behind an obfuscation key. */
  function Unmask(mappings: seq<(string, string)>, x: string): (r: string)
    ensures x in Keys(mappings) ==> Get(mappings, x) == Some(r)
    ensures x !in Keys(mappings) ==> r == x
  {
    Get(mappings, x).GetOr(x)
  }

  /**
   * One reference per phrase: searched and labelled by its plain text, and
   * remembering the phrase as the fields carry it. A list-valued phrase
   * cannot be used as an array offset, which PHP rejects with a TypeError.
   */
  function ResolveReferences(phrases: seq<FieldValue>, mappings: seq<(string, string)>,
                             search: string -> seq<Candidate>): (r: Result<seq<Reference>>)
    ensures r.Success? <==> forall k :: 0 <= k < |phrases| ==> phrases[k].Scalar?
    ensures r.Success? ==> |r.value| == |phrases|
                           && forall k :: 0 <= k < |phrases| ==>
                                var plain := Unmask(mappings, phrases[k].text);
                                r.value[k] == Reference(plain, phrases[k].text, search(plain))
    decreases |phrases|
  {
    if |phrases| == 0 then Success([])
    else
      var init := phrases[..|phrases| - 1];
      var last := phrases[|phrases| - 1];
      assert forall k :: 0 <= k < |init| ==> init[k] == phrases[k];
      match ResolveReferences(init, mappings, search)
      case Failure(e) => Failure(e)
      case Success(refs) =>
        if last.List? then Failure("TypeError: Illegal offset type")
        else
          var plain := Unmask(mappings, last.text);
          Success(refs + [Reference(plain, last.text, search(plain))])
  }

  // ---------------------------------------------------------------------
  // The pause rule of simplified_list_posts
  // ---------------------------------------------------------------------

  /** `array_filter( $refs, fn => count( options ) > 0 )`. */
  function WithOptions(refs: seq<Reference>): (r: seq<Reference>)
    ensures forall x :: x in r ==> x in refs && |x.options| > 0
    ensures |r| == 0 <==> forall k :: 0 <= k < |refs| ==> |refs[k].options| == 0
    decreases |refs|
  {
    if |refs| == 0 then []
    else
      var init := refs[..|refs| - 1];
      assert forall k :: 0 <= k < |init| ==> init[k] == refs[k];
      WithOptions(init) + (if |refs[|refs| - 1].options| > 0 then [refs[|refs| - 1]] else [])
  }

  /** `count( array_merge( $multiple_locations, $multiple_users, $multiple_posts ) ) > 0`. */
  predicate Paused(locations: seq<Reference>, users: seq<Reference>, posts: seq<Reference>)
  {
    |WithOptions(locations) + WithOptions(users) + WithOptions(posts)| > 0
  }

  /**
   * The flow pauses exactly when some location, user or post reference has
   * at least one option; when it does not, the option lists handed on to
   * the reshaper are all empty.
   */
  lemma PauseRule(locations: seq<Reference>, users: seq<Reference>, posts: seq<Reference>)
    ensures Paused(locations, users, posts)
            <==> exists r :: r in locations + users + posts && |r.options| > 0
    ensures !Paused(locations, users, posts)
            ==> WithOptions(locations) == [] && WithOptions(users) == [] && WithOptions(posts) == []
  {
    var all := locations + users + posts;
    if exists r :: r in all && |r.options| > 0 {
      var r :| r in all && |r.options| > 0;
      if r in locations {
        var k :| 0 <= k < |locations| && locations[k] == r;
      } else if r in users {
        var k :| 0 <= k < |users| && users[k] == r;
      } else {
        var k :| 0 <= k < |posts| && posts[k] == r;
      }
    }
    if Paused(locations, users, posts) {
      var w := WithOptions(locations) + WithOptions(users) + WithOptions(posts);
      assert w[0] in w;
    }
  }

  // ---------------------------------------------------------------------
  // reshape_selection_mappings
  // ---------------------------------------------------------------------

  /**
   * The obfuscation key of a chosen phrase, when there is one and it is not
   * PHP-empty; otherwise the phrase itself.
   */
  function PiiPromptOf(mappings: seq<(string, string)>, prompt: string): (r: string)
    ensures SearchValue(mappings, prompt).None? ==> r == prompt
    ensures SearchValue(mappings, prompt).Some? && !IsEmptyStr(SearchValue(mappings, prompt).value)
            ==> r == SearchValue(mappings, prompt).value
  {
    var key := SearchValue(mappings, prompt);
    if key.Some? && !IsEmptyStr(key.value) then key.value else prompt
  }

  /** A choice is taken when its phrase has not been processed yet and it is not "ignore". */
  predicate Taken(c: Choice, processed: seq<string>)
  {
    c.prompt !in processed && c.id != "ignore"
  }

  /** The mappings and the processed list after the choices in order. */
  function SelectionMappings(choices: seq<Choice>, mappings: seq<(string, string)>, processed: seq<string>)
    : (seq<Reference>, seq<string>)
    decreases |choices|
  {
    if |choices| == 0 then ([], processed)
    else
      var (refs, done) := SelectionMappings(choices[..|choices| - 1], mappings, processed);
      var c := choices[|choices| - 1];
      if Taken(c, done)
      then (refs + [Reference(c.prompt, PiiPromptOf(mappings, c.prompt), [Candidate(c.id, c.name)])],
            done + [c.prompt])
      else (refs, done)
  }

  method ReshapeSelectionMappings(choices: seq<Choice>, mappings: seq<(string, string)>, processed0: seq<string>)
    returns (refs: seq<Reference>, processed: seq<string>)
    ensures (refs, processed) == SelectionMappings(choices, mappings, processed0)
  {
    refs, processed := [], processed0;
    for k := 0 to |choices|
      invariant (refs, processed) == SelectionMappings(choices[..k], mappings, processed0)
    {
      assert choices[..k + 1][..k] == choices[..k];
      var c := choices[k];
      if c.prompt !in processed && c.id != "ignore" {
        var prompt := c.prompt;
        var piiPrompt := SearchValue(mappings, prompt);
        var shown := if piiPrompt.Some? && !IsEmptyStr(piiPrompt.value) then piiPrompt.value else prompt;
        refs := refs + [Reference(prompt, shown, [Candidate(c.id, c.name)])];
        processed := processed + [prompt];
      }
    }
    assert choices[..|choices|] == choices;
  }

  function Prompts(refs: seq<Reference>): (r: seq<string>)
    ensures |r| == |refs|
    ensures forall k :: 0 <= k < |refs| ==> r[k] == refs[k].prompt
  {
    if |refs| == 0 then [] else [refs[0].prompt] + Prompts(refs[1..])
  }

  lemma PromptsAppend(refs: seq<Reference>, r: Reference)
    ensures Prompts(refs + [r]) == Prompts(refs) + [r.prompt]
  {
  }

  /**
   * The returned processed list is the given one followed by the emitted
   * prompts; no emitted prompt was processed before, and none is emitted
   * twice; every emitted mapping has exactly one option, taken from a
   * choice that is not "ignore", and carries the reverse PII lookup.
   */
  lemma {:induction false} SelectionMappingsProps(choices: seq<Choice>, mappings: seq<(string, string)>, processed: seq<string>)
    ensures var (refs, done) := SelectionMappings(choices, mappings, processed);
            && done == processed + Prompts(refs)
            && Distinct(Prompts(refs))
            && (forall k :: 0 <= k < |refs| ==> refs[k].prompt !in processed)
            && (forall k :: 0 <= k < |refs| ==>
                  |refs[k].options| == 1 && refs[k].piiPrompt == PiiPromptOf(mappings, refs[k].prompt)
                  && exists c :: c in choices && c.id != "ignore" && c.prompt == refs[k].prompt
                                 && refs[k].options[0] == Candidate(c.id, c.name))
    decreases |choices|
  {
    if |choices| > 0 {
      var init := choices[..|choices| - 1];
      var c := choices[|choices| - 1];
      SelectionMappingsProps(init, mappings, processed);
      var (refs, done) := SelectionMappings(init, mappings, processed);
      assert forall x :: x in init ==> x in choices;
      if Taken(c, done) {
        var r := Reference(c.prompt, PiiPromptOf(mappings, c.prompt), [Candidate(c.id, c.name)]);
        PromptsAppend(refs, r);
        assert c.prompt !in Prompts(refs);
        var ps := Prompts(refs + [r]);
        assert Distinct(ps) by {
          forall a, b | 0 <= a < b < |ps| ensures ps[a] != ps[b] {
            if b == |ps| - 1 {
              assert ps[a] == Prompts(refs)[a];
            }
          }
        }
        assert (refs + [r])[|refs|] == r;
      }
    }
  }

  /**
   * Every choice that is not "ignore" ends up processed: either it was
   * processed before, or its prompt is emitted.
   */
  lemma {:induction false} SelectionMappingsComplete(choices: seq<Choice>, mappings: seq<(string, string)>, processed: seq<string>)
    ensures var (refs, done) := SelectionMappings(choices, mappings, processed);
            forall c :: c in choices && c.id != "ignore" ==> c.prompt in done
    decreases |choices|
  {
    if |choices| > 0 {
      var init := choices[..|choices| - 1];
      SelectionMappingsComplete(init, mappings, processed);
      SelectionMappingsProps(init, mappings, processed);
      SelectionMappingsProps(choices, mappings, processed);
      var (refs0, done0) := SelectionMappings(init, mappings, processed);
      var (refs, done) := SelectionMappings(choices, mappings, processed);
      assert forall x :: x in done0 ==> x in done;
      assert forall x :: x in choices ==> x in init || x == choices[|choices| - 1];
    }
  }

  /**
   * An ignored choice is not marked processed: every processed prompt was
   * processed before or belongs to a choice that is not "ignore".
   */
  lemma IgnoredNotProcessed(choices: seq<Choice>, mappings: seq<(string, string)>, processed: seq<string>)
    ensures var (refs, done) := SelectionMappings(choices, mappings, processed);
            forall p :: p in done ==> p in processed || exists c :: c in choices && c.id != "ignore" && c.prompt == p
  {
    SelectionMappingsProps(choices, mappings, processed);
    var (refs, done) := SelectionMappings(choices, mappings, processed);
    forall p | p in done && p !in processed
      ensures exists c :: c in choices && c.id != "ignore" && c.prompt == p
    {
      var k :| 0 <= k < |done| && done[k] == p;
      assert done[k] == Prompts(refs)[k - |processed|];
    }
  }

  /** The three stages of simplified_list_posts_with_selections, chained through the processed list. */
  function ChainedSelections(locations: seq<Choice>, users: seq<Choice>, posts: seq<Choice>,
                             mappings: seq<(string, string)>)
    : (seq<Reference>, seq<Reference>, seq<Reference>)
  {
    var (l, lDone) := SelectionMappings(locations, mappings, []);
    var (u, uDone) := SelectionMappings(users, mappings, lDone);
    var (p, _) := SelectionMappings(posts, mappings, uDone);
    (l, u, p)
  }

  lemma DistinctAppend(a: seq<string>, b: seq<string>)
    requires Distinct(a) && Distinct(b) && forall k :: 0 <= k < |b| ==> b[k] !in a
    ensures Distinct(a + b)
  {
    var ab := a + b;
    forall i, j | 0 <= i < j < |ab| ensures ab[i] != ab[j] {
      if j >= |a| {
        assert ab[j] == b[j - |a|];
        if i >= |a| {
          assert ab[i] == b[i - |a|];
        } else {
          assert ab[i] == a[i];
        }
      }
    }
  }

  /** A stage started on a list with no repetition hands on a list with no repetition. */
  lemma StageKeepsDistinct(choices: seq<Choice>, mappings: seq<(string, string)>, processed: seq<string>)
    requires Distinct(processed)
    ensures var (refs, done) := SelectionMappings(choices, mappings, processed);
            done == processed + Prompts(refs) && Distinct(done)
  {
    SelectionMappingsProps(choices, mappings, processed);
    var (refs, done) := SelectionMappings(choices, mappings, processed);
    var ps := Prompts(refs);
    assert forall k :: 0 <= k < |ps| ==> ps[k] == refs[k].prompt;
    DistinctAppend(processed, ps);
  }

  /** A prompt emitted under locations is never emitted again under users or posts, nor a user prompt under posts. */
  lemma ChainEmitsOnce(locations: seq<Choice>, users: seq<Choice>, posts: seq<Choice>,
                       mappings: seq<(string, string)>)
    ensures var (l, u, p) := ChainedSelections(locations, users, posts, mappings);
            Distinct(Prompts(l) + Prompts(u) + Prompts(p))
  {
    var (l, lDone) := SelectionMappings(locations, mappings, []);
    StageKeepsDistinct(locations, mappings, []);
    var (u, uDone) := SelectionMappings(users, mappings, lDone);
    StageKeepsDistinct(users, mappings, lDone);
    var (p, pDone) := SelectionMappings(posts, mappings, uDone);
    StageKeepsDistinct(posts, mappings, uDone);
    assert lDone == Prompts(l);
    assert pDone == Prompts(l) + Prompts(u) + Prompts(p);
  }
}
