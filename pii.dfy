/**
 * The PII obfuscation mapper (`parse_prompt_for_pii`): the detected names,
 * locations, e-mail addresses and phone numbers are merged and deduplicated;
 * each token is given a scrambled key; the prompt is rewritten by replacing
 * every token, in mapping order, by its key.
 */
module Pii {
  import opened Wrappers
  import opened PhpStr
  import opened Assoc

  /**
   * `str_shuffle($token . uniqid())` for the n-th token: random, so supplied
   * by the caller.
   */
  type KeyGen = (nat, string) -> string

  /** The array parse_prompt_for_pii returns. */
  datatype PiiResult = PiiResult(original: string, obfuscated: string,
                                 pii: seq<string>, mappings: seq<(string, string)>)

  /** `array_unique(array_merge(names, locations, emails, phones))`. */
  function DetectedTokens(names: seq<string>, locations: seq<string>,
                          emails: seq<string>, phones: seq<string>): (r: seq<string>)
    ensures Distinct(r)
    ensures forall x :: x in r <==> x in names || x in locations || x in emails || x in phones
  {
    Unique(names + locations + emails + phones)
  }

  /** The mapping array after the first loop has processed the given tokens. */
  function BuildMappings(pii: seq<string>, keyGen: KeyGen): seq<(string, string)>
    decreases |pii|
  {
    if |pii| == 0 then []
    else
      var n := |pii| - 1;
      Put(BuildMappings(pii[..n], keyGen), keyGen(n, pii[n]), pii[n])
  }

  /** The prompt after the second loop has replaced the values of the given mappings. */
  function Obfuscate(prompt: string, mappings: seq<(string, string)>): string
    decreases |mappings|
  {
    if |mappings| == 0 then prompt
    else
      var n := |mappings| - 1;
      StrReplace(mappings[n].1, mappings[n].0, Obfuscate(prompt, mappings[..n]))
  }

  /**
   * parse_prompt_for_pii over the four detectors' results (their regex and
   * database stages are not part of this model).
   */
  method ParsePromptForPii(prompt: string, names: seq<string>, locations: seq<string>,
                           emails: seq<string>, phones: seq<string>, keyGen: KeyGen)
    returns (r: PiiResult)
    ensures r.original == prompt
    ensures r.pii == DetectedTokens(names, locations, emails, phones)
    ensures r.mappings == BuildMappings(r.pii, keyGen)
    ensures r.obfuscated == Obfuscate(prompt, r.mappings)
  {
    var pii := DetectedTokens(names, locations, emails, phones);
    var mappings := MapTokens(pii, keyGen);
    var obfuscated := ReplaceTokens(prompt, mappings);
    r := PiiResult(prompt, obfuscated, pii, mappings);
  }

  /** The first loop of parse_prompt_for_pii: one scrambled key per token. */
  method MapTokens(pii: seq<string>, keyGen: KeyGen) returns (mappings: seq<(string, string)>)
    ensures mappings == BuildMappings(pii, keyGen)
  {
    mappings := [];
    for k := 0 to |pii|
      invariant mappings == BuildMappings(pii[..k], keyGen)
    {
      assert pii[..k + 1][..k] == pii[..k];
      var key := keyGen(k, pii[k]);
      mappings := Put(mappings, key, pii[k]);
    }
    assert pii[..|pii|] == pii;
  }

  /** The second loop of parse_prompt_for_pii: replace each mapped token by its key. */
  method ReplaceTokens(prompt: string, mappings: seq<(string, string)>) returns (obfuscated: string)
    ensures obfuscated == Obfuscate(prompt, mappings)
  {
    obfuscated := prompt;
    for k := 0 to |mappings|
      invariant obfuscated == Obfuscate(prompt, mappings[..k])
    {
      assert mappings[..k + 1][..k] == mappings[..k];
      obfuscated := StrReplace(mappings[k].1, mappings[k].0, obfuscated);
    }
    assert mappings[..|mappings|] == mappings;
  }

  /** No key is mapped twice. */
  lemma {:induction false} MappingsDistinctKeys(pii: seq<string>, keyGen: KeyGen)
    ensures DistinctKeys(BuildMappings(pii, keyGen))
    decreases |pii|
  {
    if |pii| > 0 {
      var n := |pii| - 1;
      MappingsDistinctKeys(pii[..n], keyGen);
      PutDistinct(BuildMappings(pii[..n], keyGen), keyGen(n, pii[n]), pii[n]);
    }
  }

  /** There are at most as many entries as tokens, and some entry exactly when a token was detected. */
  lemma {:induction false} MappingsLength(pii: seq<string>, keyGen: KeyGen)
    ensures var m := BuildMappings(pii, keyGen);
            |m| <= |pii| && (|m| == 0 <==> |pii| == 0)
    decreases |pii|
  {
    if |pii| > 0 {
      var n := |pii| - 1;
      MappingsLength(pii[..n], keyGen);
      PutLength(BuildMappings(pii[..n], keyGen), keyGen(n, pii[n]), pii[n]);
    }
  }

  /** Every mapping value is a detected token. */
  lemma {:induction false} MappingsFromTokens(pii: seq<string>, keyGen: KeyGen)
    ensures forall x :: x in Values(BuildMappings(pii, keyGen)) ==> x in pii
    decreases |pii|
  {
    if |pii| > 0 {
      var n := |pii| - 1;
      MappingsFromTokens(pii[..n], keyGen);
      ValuesStep(BuildMappings(pii[..n], keyGen), pii, n, keyGen(n, pii[n]));
    }
  }

  lemma ValuesStep(prev: seq<(string, string)>, pii: seq<string>, n: nat, key: string)
    requires n < |pii|
    requires forall x :: x in Values(prev) ==> x in pii[..n]
    ensures forall x :: x in Values(Put(prev, key, pii[n])) ==> x in pii
  {
    PutValues(prev, key, pii[n]);
    assert forall x :: x in pii[..n] ==> x in pii;
  }

  /**
   * When the key generator gives distinct keys to distinct positions (as
   * scrambling with a unique id does in practice), every token has its own
   * entry, in detection order.
   */
  lemma {:induction false} MappingsWithDistinctKeys(pii: seq<string>, keyGen: KeyGen)
    requires forall a, b :: 0 <= a < b < |pii| ==> keyGen(a, pii[a]) != keyGen(b, pii[b])
    ensures var m := BuildMappings(pii, keyGen);
            |m| == |pii| && forall k :: 0 <= k < |pii| ==> m[k] == (keyGen(k, pii[k]), pii[k])
    decreases |pii|
  {
    if |pii| > 0 {
      var n := |pii| - 1;
      var init := pii[..n];
      assert forall k :: 0 <= k < n ==> init[k] == pii[k];
      MappingsWithDistinctKeys(init, keyGen);
      EntriesStep(BuildMappings(init, keyGen), pii, keyGen);
    }
  }

  /** One more token with a fresh key is one more entry at the end. */
  lemma EntriesStep(prev: seq<(string, string)>, pii: seq<string>, keyGen: KeyGen)
    requires |pii| > 0 && |prev| == |pii| - 1
    requires forall a, b :: 0 <= a < b < |pii| ==> keyGen(a, pii[a]) != keyGen(b, pii[b])
    requires forall k :: 0 <= k < |prev| ==> prev[k] == (keyGen(k, pii[k]), pii[k])
    ensures var m := Put(prev, keyGen(|prev|, pii[|prev|]), pii[|prev|]);
            |m| == |pii| && forall k :: 0 <= k < |pii| ==> m[k] == (keyGen(k, pii[k]), pii[k])
  {
    var n := |prev|;
    var key := keyGen(n, pii[n]);
    assert key !in Keys(prev) by {
      forall k | 0 <= k < |prev| ensures Keys(prev)[k] != key {
        assert prev[k].0 == keyGen(k, pii[k]);
      }
    }
    PutAppends(prev, key, pii[n]);
  }

  /** Assigning a new key appends one entry. */
  lemma {:induction false} PutAppends<K(!new), V>(m: seq<(K, V)>, k: K, v: V)
    requires k !in Keys(m)
    ensures Put(m, k, v) == m + [(k, v)]
    decreases |m|
  {
    if |m| > 0 {
      assert Keys(m)[0] == m[0].0;
      assert k !in Keys(m[1..]) by {
        forall i | 0 <= i < |m[1..]| ensures Keys(m[1..])[i] != k {
          assert Keys(m[1..])[i] == Keys(m)[i + 1];
        }
      }
      PutAppends(m[1..], k, v);
      assert [m[0]] + (m[1..] + [(k, v)]) == m + [(k, v)];
    }
  }

  /**
   * With distinct keys, a key looks up its token, and the reverse lookup
   * (`array_search`, as the selection and reshaping steps use it) finds the
   * key of a token.
   */
  lemma MappingsLookup(pii: seq<string>, keyGen: KeyGen, k: nat)
    requires k < |pii|
    requires forall a, b :: 0 <= a < b < |pii| ==> keyGen(a, pii[a]) != keyGen(b, pii[b])
    ensures Get(BuildMappings(pii, keyGen), keyGen(k, pii[k])) == Some(pii[k])
  {
    MappingsWithDistinctKeys(pii, keyGen);
    MappingsDistinctKeys(pii, keyGen);
    GetAt(BuildMappings(pii, keyGen), k);
  }

  lemma MappingsReverseLookup(pii: seq<string>, keyGen: KeyGen, k: nat)
    requires Distinct(pii) && k < |pii|
    requires forall a, b :: 0 <= a < b < |pii| ==> keyGen(a, pii[a]) != keyGen(b, pii[b])
    ensures SearchValue(BuildMappings(pii, keyGen), pii[k]) == Some(keyGen(k, pii[k]))
  {
    var m := BuildMappings(pii, keyGen);
    MappingsWithDistinctKeys(pii, keyGen);
    ValuesAre(m, pii);
    assert m[k] == (keyGen(k, pii[k]), pii[k]);
    SearchValueAt(m, k);
  }

  lemma ValuesAre(m: seq<(string, string)>, pii: seq<string>)
    requires |m| == |pii| && forall j :: 0 <= j < |pii| ==> m[j].1 == pii[j]
    ensures Values(m) == pii
  {
  }

  /** If no mapped token occurs in the prompt, obfuscation leaves it unchanged. */
  lemma {:induction false} ObfuscateNoOccurrence(prompt: string, mappings: seq<(string, string)>)
    requires forall i :: 0 <= i < |mappings| ==> !Contains(prompt, mappings[i].1)
    ensures Obfuscate(prompt, mappings) == prompt
    decreases |mappings|
  {
    if |mappings| > 0 {
      var n := |mappings| - 1;
      var init := mappings[..n];
      assert forall i :: 0 <= i < n ==> init[i] == mappings[i];
      ObfuscateNoOccurrence(prompt, init);
      StrReplaceAbsent(mappings[n].1, mappings[n].0, prompt);
    }
  }

  /** With nothing detected there are no mappings and the prompt is left as it is. */
  lemma NothingDetected(prompt: string, keyGen: KeyGen)
    ensures var pii := DetectedTokens([], [], [], []);
            pii == [] && BuildMappings(pii, keyGen) == [] && Obfuscate(prompt, []) == prompt
  {
    assert forall x :: x !in DetectedTokens([], [], [], []);
  }

  /** simplified_list_posts' `$has_pii` test (the obfuscated prompt is always set here). */
  predicate HasPii(r: PiiResult)
  {
    |r.pii| > 0 && |r.mappings| > 0
  }

  /** The prompt the model is sent: the obfuscated one exactly when PII was found. */
  function PromptForModel(r: PiiResult): (p: string)
    ensures HasPii(r) ==> p == r.obfuscated
    ensures !HasPii(r) ==> p == r.original
  {
    if HasPii(r) then r.obfuscated else r.original
  }

  /** For a mapper result, `$has_pii` holds exactly when some token was detected. */
  lemma HasPiiIffDetected(prompt: string, names: seq<string>, locations: seq<string>,
                          emails: seq<string>, phones: seq<string>, keyGen: KeyGen)
    ensures var pii := DetectedTokens(names, locations, emails, phones);
            var m := BuildMappings(pii, keyGen);
            HasPii(PiiResult(prompt, Obfuscate(prompt, m), pii, m))
            <==> |names| + |locations| + |emails| + |phones| > 0
  {
    var pii := DetectedTokens(names, locations, emails, phones);
    MappingsLength(pii, keyGen);
    if |names| > 0 { assert names[0] in pii; }
    if |locations| > 0 { assert locations[0] in pii; }
    if |emails| > 0 { assert emails[0] in pii; }
    if |phones| > 0 { assert phones[0] in pii; }
    if |pii| > 0 { assert pii[0] in pii; }
  }
}
