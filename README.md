# Disciple.Tools AI: a verified model of the filter, PII and chat core

Disciple.Tools AI is a WordPress plugin. It turns a natural-language request
("show me contacts assigned to Sam in Paris that are paused") into a list-posts
query for the Disciple.Tools CRM, and it applies chat commands
("met with John, he is now a believer") to a contact record. A large language
model does the interpretation. Around the model the plugin runs deterministic
code, and that code is modelled here:

- **PII obfuscation.** A prompt is first scanned for personal data: names
  (sliding windows of three, two and one tokens matched against post titles)
  and locations (pattern hits, then windows of four, three, two and one tokens
  matched against location names), e-mail addresses and phone numbers. The function
  `parse_prompt_for_pii` then replaces each detected token by a scrambled key,
  and the model only ever sees the obfuscated prompt.
- **Filter pipeline.** The fields the model returns are routed to location
  and user connections. Ambiguous connections pause the flow
  (`multiple_options_detected`). The user's selections are turned back into
  references. Each field's intents (`ANY`, `NOT_EQUALS`, `NOT_SET`,
  `STATUS_*`, `DATES_*`) are folded into a value prefix and a status. The
  obfuscated values are resolved back to system ids or plain text.
- **Retry loops.** These are the two model-calling loops with their fallbacks.
- **GeoJSON conversion** of posts with location metadata.
- **Chat command** (`magic-link/ai-chat-control/ai-chat.php`). It builds the
  field description, resolves the contact, coerces each field update by type,
  matches key_select labels, and composes the result message and comments.
- **List app endpoints** (`magic-link/magic-link-ai-list-app.php`):
  `create_filter` and `update_record`, with field packaging.
- **Model-specification assembly** (`data/data.php`): reading the data
  files, reshaping the examples, and building the filter specification.

The Dafny modules follow that structure:

| module | file | what it holds |
|---|---|---|
| Wrappers | wrappers.dfy | `Option` and `Result` |
| PhpStr | phpstr.dfy | the PHP string builtins the core relies on: `trim`, `strtolower`, `str_contains`, `str_replace`, `implode`/`explode`, `addslashes`/`stripslashes`, `levenshtein`, `empty()` on strings |
| Assoc | assoc.dfy | PHP ordered arrays as sequences of key/value pairs: in-place overwrite, reverse search, `array_unique` |
| Validators | validators.dfy | `is_valid_email_format`, `is_valid_phone_format` |
| Detector | detector.dfy | `find_name_matches`, `find_location_matches` and the three/two/one-token window scans |
| Pii | pii.dfy | `parse_prompt_for_pii` and the `$has_pii` decision |
| Selection | selection.dfy | `parse_fields_for_connections`, the reference builders, the pause rule, `reshape_selection_mappings` and its chaining |
| LlmFields | llmfields.dfy | the model's field records |
| Reshaper | reshaper.dfy | intent folding, `extract_reshaped_field_values`, `reshape_fields_to_required_list_post_query_structure`, `extract_multiple_option_by_key_value`, `convert_filter_fields_from_obfuscated_to_plain` |
| Retry | retry.dfy | `parse_prompt_for_fields` and `handle_create_filter_request` retry loops |
| GeoJson | geojson.dfy | `convert_posts_to_geojson` |
| AiChat | aichat.dfy | `process_chat_command` |
| ListApp | listapp.dfy | `create_filter`, `handle_create_filter_request` and `update_record` of the list app |
| DataSpecs | dataspecs.dfy | `get_data`, `reshape_examples`, `build_filter_query_specs` |

The source's loops are Dafny `method`s with `while` loops and invariants. A
nested loop is split so that each inner loop is its own method. Each method is
proved equal to a specification function, and the lemmas state what the
source promises about that function.

Some parts are external: the language model's replies, the database
searches, `similar_text`, `filter_var`, the phone regex battery, key
scrambling, `strtotime`, `is_numeric` and `DT_Posts` storage. Each of these
is a function-typed parameter or a given sequence. That way every property
holds whatever they return.

The model follows the code where the code and its comments disagree:

- The last matching option wins for a list-valued key_select update, because
  `break` leaves only the inner loop.
- `overall_status` can be overwritten by the model's own update.
- The list app turns an error response into `success` with empty members.
- A data-file line whose trim is `"0"` is dropped, because PHP's `empty("0")`
  holds.

## Model

The specification functions the operations are proved against (`Reshaper.Hit`, `Reshaper.HitAsWritten`, `Validators.IsValidEmailFormat`, `Validators.IsValidPhoneFormat`, `Pii.Obfuscate`, `Detector.TitleMatches` and the like) carry no contract of their own; each is mapped to its source lines through the characterising lemma or loop method that names it in its row below.

| member | source | states |
|---|---|---|
| PhpStr.TrimProps | lib/disciple-tools-ai-api.php:1409 | `trim` yields the infix left after stripping whitespace/NUL characters at both ends; it is no longer and neither starts nor ends with one |
| PhpStr.TrimLeftProps | lib/disciple-tools-ai-api.php:1409 | left trimming removes only a prefix of strippable characters and stops at a non-strippable one |
| PhpStr.TrimRightProps | lib/disciple-tools-ai-api.php:1409 | right trimming removes only a suffix of strippable characters and stops at a non-strippable one |
| PhpStr.Lower | lib/disciple-tools-ai-api.php:1125 | `strtolower` keeps the length and maps each character independently, shifting only A–Z |
| PhpStr.LowerChar | lib/disciple-tools-ai-api.php:1125 | an ASCII capital moves down by 32; every other character is unchanged |
| PhpStr.ContainsAt | lib/disciple-tools-ai-api.php:1412 | `str_contains` holds exactly when the needle starts at some position of the haystack |
| PhpStr.ContainsChar | lib/disciple-tools-ai-api.php:1412 | a one-character needle is contained exactly when the character occurs |
| PhpStr.StrReplaceAbsent | lib/disciple-tools-ai-api.php:655 | replacing a string that does not occur leaves the subject unchanged |
| PhpStr.StrReplaceSelf | lib/disciple-tools-ai-api.php:655 | replacing a string by itself leaves the subject unchanged |
| PhpStr.Implode | data/data.php:108-112 | `implode` of nothing is "", of one part is that part |
| PhpStr.ImplodeAppend | data/data.php:108-112 | imploding two non-empty halves joins them with exactly one more separator |
| PhpStr.Explode | data/data.php:72 | `explode` on a non-empty delimiter always yields at least one piece |
| PhpStr.ImplodeExplode | data/data.php:72 | exploding then imploding with the same delimiter gives the string back |
| PhpStr.ExplodeAbsent | lib/disciple-tools-ai-api.php:1417 | exploding on a delimiter that does not occur yields the whole string (also data/data.php line 72 on an example without the delimiter) |
| PhpStr.ExplodeChar | lib/disciple-tools-ai-api.php:1417 | exploding on a character gives one more piece than its occurrences, and no piece contains it |
| PhpStr.AddSlashes | data/data.php:54 | `addslashes` never shortens a string |
| PhpStr.StripAddSlashes | data/data.php:54 | `stripslashes` undoes `addslashes`: escaping loses nothing |
| PhpStr.LevenshteinSelf | lib/disciple-tools-ai-api.php:1164 | a string is at edit distance 0 from itself |
| PhpStr.LevenshteinLengthGap | lib/disciple-tools-ai-api.php:1164 | the edit distance is at least the difference of the lengths |
| PhpStr.LevenshteinAtMostLonger | lib/disciple-tools-ai-api.php:1164 | the edit distance is at most the longer length |
| Assoc.Get | lib/disciple-tools-ai-api.php:895 | `$m[$k] ?? null` is absent exactly when no entry has key k, and otherwise a value stored under k |
| Assoc.GetAt | lib/disciple-tools-ai-api.php:895 | with distinct keys, each entry is what the lookup of its key finds |
| Assoc.Put | lib/disciple-tools-ai-api.php:1639 | assignment keeps the key order for an existing key and appends a new key at the end |
| Assoc.PutGet | lib/disciple-tools-ai-api.php:1639 | after `$m[$k] = $v` the key reads v and every other key reads what it read before |
| Assoc.PutLength | lib/disciple-tools-ai-api.php:1639 | assignment adds at most one entry and never leaves the array empty |
| Assoc.PutValues | lib/disciple-tools-ai-api.php:1639 | assignment brings in no value other than the assigned one |
| Assoc.PutDistinct | lib/disciple-tools-ai-api.php:1639 | assignment keeps the keys distinct |
| Assoc.SearchValue | lib/disciple-tools-ai-api.php:164 | `array_search` is absent exactly when no entry holds the value, and otherwise gives the key of the first entry holding it |
| Assoc.SearchValueAt | lib/disciple-tools-ai-api.php:164 | with distinct values, the reverse lookup of an entry's value finds that entry's key |
| Assoc.Unique | lib/disciple-tools-ai-api.php:630-637 | `array_unique` holds exactly the input's elements, each once, ordered by their first occurrence in the input, and is no longer |
| Wrappers.Option.GetOr | lib/disciple-tools-ai-api.php:895 | `??` gives the value when set and the default otherwise |
| Validators.EmailFormatCharacterised | lib/disciple-tools-ai-api.php:1407-1482 | the e-mail guard chain accepts exactly the trimmed addresses that are well formed (one '@'; local part of 1–64 allowed characters, no edge or double dots; domain of at most 255 allowed characters with a dot, no edge dot or hyphen, no double dots, a last label of two or more letters) and that `filter_var` accepts |
| Validators.OneAtCase | lib/disciple-tools-ai-api.php:1417-1470 | with exactly one '@', the split gives the local part and the domain, and the guards on each are the reference conditions |
| Validators.LocalGuardsOk | lib/disciple-tools-ai-api.php:1423-1442 | the local-part guards are exactly the reference local-part condition |
| Validators.DomainGuardsOk | lib/disciple-tools-ai-api.php:1444-1478 | on a trimmed domain, the domain guards are exactly the reference domain condition |
| Validators.TrimmedCharClassLine | lib/disciple-tools-ai-api.php:1428 | on a trimmed string, `/^[...]+$/` means non-empty with every character in the class (the final-newline allowance of `$` cannot apply) |
| Validators.ExplodeOnce | lib/disciple-tools-ai-api.php:1417 | exploding on a character that occurs once splits around it |
| Validators.ExplodeFirstPiece | lib/disciple-tools-ai-api.php:1472 | the first piece ends before the first occurrence, and the remaining pieces are the explode of what follows it |
| Validators.LastPieceIsLastLabel | lib/disciple-tools-ai-api.php:1472-1473 | `end( explode( '.', $domain ) )` is the text after the last dot |
| Validators.LastLabelIsSuffix | lib/disciple-tools-ai-api.php:1473 | the last label is a suffix of the domain |
| Validators.LastLabelSuffix | lib/disciple-tools-ai-api.php:1473 | the last label after a dot is the last label of the text after that dot |
| Validators.LastLabelNoDot | lib/disciple-tools-ai-api.php:1473 | without a dot, the last label is the whole domain |
| Validators.OnlyOneAt | lib/disciple-tools-ai-api.php:1418 | a character counted once occurs at one position only |
| Validators.Digits | lib/disciple-tools-ai-api.php:1567 | the digits of a string are no longer than it and are all digits |
| Validators.DigitsOfDigitsAndPlus | lib/disciple-tools-ai-api.php:1564-1567 | removing everything but digits and '+' first does not change the digit count |
| Validators.DigitsAppend | lib/disciple-tools-ai-api.php:1567 | the digits of a concatenation are the concatenated digits |
| Validators.SeparatorOnlyExcluded | lib/disciple-tools-ai-api.php:1583-1586 | a string that has a digit is never all separators, so that guard is redundant after the digit count |
| Validators.PhoneFormatCharacterised | lib/disciple-tools-ai-api.php:1559-1616 | a phone passes exactly when its trimmed form has 7 to 15 digits, only phone characters, not one digit repeated, and matches one of the patterns |
| Detector.TitleMatchesCharacterised | lib/disciple-tools-ai-api.php:1133-1170 | a title matches a term exactly when, lower-cased, it contains the term, or is similar enough, or both are longer than three characters and within edit distance 2 (the equality and prefix checks are subsumed) |
| Detector.TitleMatchesItself | lib/disciple-tools-ai-api.php:1136-1139 | a term always matches a title equal to it up to case |
| Detector.MatchesIn | lib/disciple-tools-ai-api.php:1133-1172 | one copy of the term per matching title, and none exactly when no title matches |
| Detector.NameMatches | lib/disciple-tools-ai-api.php:1123-1173 | a stop word yields nothing; otherwise the result is non-empty exactly when some title matches, and holds only the term |
| Detector.FindNameMatches | lib/disciple-tools-ai-api.php:1123-1173 | the stop-word check and title loop compute NameMatches |
| Detector.ExactMatchesIn | lib/disciple-tools-ai-api.php:1303-1312 | one copy of the term per location name equal to it up to case, and none exactly when there is no such name |
| Detector.LocationMatches | lib/disciple-tools-ai-api.php:1293-1343 | a stop word yields nothing; otherwise the result is non-empty exactly when some location name equals the term up to case (the only live branch) |
| Detector.FindLocationMatches | lib/disciple-tools-ai-api.php:1293-1343 | the location loop computes LocationMatches |
| Detector.LocationMatchImpliesNameMatch | lib/disciple-tools-ai-api.php:1293-1343 | a term the location matcher accepts, the name matcher also accepts against the same list |
| Detector.ScanPass | lib/disciple-tools-ai-api.php:1060-1078 | one `for` pass of a window width computes the pass function: used positions and found texts |
| Detector.ParsePromptForPiiNames | lib/disciple-tools-ai-api.php:1043-1121 | the three window passes and `array_unique` compute the detected names |
| Detector.ParsePromptForPiiLocations | lib/disciple-tools-ai-api.php:1175-1291 | the pattern hits followed by the four window passes compute the detected locations |
| Detector.PassInv | lib/disciple-tools-ai-api.php:1060-1117 | a pass keeps the scan invariant: accepted windows in bounds, disjoint, matched, and covering exactly the used positions |
| Detector.PassAppends | lib/disciple-tools-ai-api.php:1060-1117 | a pass only appends windows of its own width and never forgets a used position |
| Detector.NameWindowsDisjoint | lib/disciple-tools-ai-api.php:1060-1117 | accepted name windows never overlap, and the used positions are exactly those they cover |
| Detector.NameWindowsMatch | lib/disciple-tools-ai-api.php:1060-1117 | every accepted window's text has at least three characters, is not a stop word, and matches some title |
| Detector.NameWindowsLongestFirst | lib/disciple-tools-ai-api.php:1060-1117 | windows are accepted longest first: three tokens, then two, then one |
| Detector.SingleTokenPassComplete | lib/disciple-tools-ai-api.php:1101-1117 | after the one-token pass, no unused position holds a token that would be accepted |
| Detector.NameScanMissesNoToken | lib/disciple-tools-ai-api.php:1101-1117 | no single token that would match a title is left unused by the scan |
| Detector.PiiNamesAreWindowTexts | lib/disciple-tools-ai-api.php:1043-1121 | the detected names are distinct, and each is the text of an accepted window |
| Detector.NameScanFound | lib/disciple-tools-ai-api.php:1043-1121 | the found list is what the accepted windows' texts yield, in order |
| Detector.PiiLocationsSound | lib/disciple-tools-ai-api.php:1175-1291 | every pattern hit is kept; every other location is a non-stop-word run of tokens equal, up to case, to a known location name; runs never overlap; no location is repeated |
| Detector.SingleWindowText | lib/disciple-tools-ai-api.php:1108 | a one-token window's text is the trimmed token |
| Detector.Range | lib/disciple-tools-ai-api.php:1073-1075 | the positions a window marks used are exactly lo .. hi - 1 |
| Pii.DetectedTokens | lib/disciple-tools-ai-api.php:630-637 | the merged detections have no repetition and hold exactly what some detector found |
| Pii.ParsePromptForPii | lib/disciple-tools-ai-api.php:621-670 | the result carries the original prompt, the unique detections, their mappings and the obfuscated prompt |
| Pii.MapTokens | lib/disciple-tools-ai-api.php:643-647 | the mapping loop assigns one scrambled key per token |
| Pii.ReplaceTokens | lib/disciple-tools-ai-api.php:653-656 | the obfuscation loop replaces each mapped token by its key, in mapping order |
| Pii.MappingsDistinctKeys | lib/disciple-tools-ai-api.php:643-647 | no key is mapped twice |
| Pii.MappingsLength | lib/disciple-tools-ai-api.php:643-647 | there are at most as many mappings as tokens, and some mapping exactly when a token was detected |
| Pii.MappingsFromTokens | lib/disciple-tools-ai-api.php:643-647 | every mapped value is a detected token |
| Pii.MappingsWithDistinctKeys | lib/disciple-tools-ai-api.php:643-647 | when keys are distinct per position, each token gets its own mapping, in detection order |
| Pii.MappingsLookup | lib/disciple-tools-ai-api.php:643-647 | with distinct keys, a token's key looks the token up |
| Pii.MappingsReverseLookup | lib/disciple-tools-ai-api.php:164 | with distinct tokens and keys, the reverse lookup of a token finds its key |
| Pii.PutAppends | lib/disciple-tools-ai-api.php:645 | assigning a key not yet present appends exactly one entry |
| Pii.ObfuscateNoOccurrence | lib/disciple-tools-ai-api.php:653-656 | when no mapped token occurs in the prompt, obfuscation leaves it unchanged |
| Pii.NothingDetected | lib/disciple-tools-ai-api.php:621-670 | with nothing detected there are no mappings and the prompt is unchanged |
| Pii.PromptForModel | lib/disciple-tools-ai-api.php:20-23 | the model is sent the obfuscated prompt exactly when PII was found, else the original |
| Pii.HasPiiIffDetected | lib/disciple-tools-ai-api.php:20 | `$has_pii` holds exactly when some detector found something |
| Selection.ParseFieldsForConnections | lib/disciple-tools-ai-api.php:863-883 | the routing loop computes the location and user phrase lists |
| Selection.LocationsRouted | lib/disciple-tools-ai-api.php:869-872 | a value is a location phrase exactly when it is the value of a known field of type location or location_meta |
| Selection.UsersRouted | lib/disciple-tools-ai-api.php:874-876 | a value is a user phrase exactly when it is the value of a known user_select field |
| Selection.Unmask | lib/disciple-tools-ai-api.php:893 | `$pii_mappings[$x] ?? $x` gives the mapped plain text of a key, and the value itself otherwise |
| Selection.ResolveReferences | lib/disciple-tools-ai-api.php:885-975 | the builders succeed exactly when every phrase is a string; then one reference per phrase, searched and labelled by its plain text and keeping the phrase as the fields carry it |
| Selection.WithOptions | lib/disciple-tools-ai-api.php:62-64 | the filter keeps only references with options, and is empty exactly when none has one |
| Selection.PauseRule | lib/disciple-tools-ai-api.php:99-110 | the flow pauses exactly when some location, user or post reference has an option; otherwise the option lists handed on are all empty |
| Selection.PiiPromptOf | lib/disciple-tools-ai-api.php:164-168 | the pii_prompt is the non-empty key the reverse lookup finds, else the prompt itself |
| Selection.ReshapeSelectionMappings | lib/disciple-tools-ai-api.php:158-185 | the selection loop computes the selection mappings and the processed list |
| Selection.SelectionMappingsProps | lib/disciple-tools-ai-api.php:158-185 | processed = given + emitted prompts; nothing emitted twice or already processed; each mapping has one option from a non-ignored choice and carries the reverse PII lookup |
| Selection.SelectionMappingsComplete | lib/disciple-tools-ai-api.php:161-179 | every non-ignored choice ends up processed |
| Selection.IgnoredNotProcessed | lib/disciple-tools-ai-api.php:162 | an ignored choice is never marked processed |
| Selection.StageKeepsDistinct | lib/disciple-tools-ai-api.php:158-185 | a stage given a processed list without repetition hands on one without repetition |
| Selection.ChainEmitsOnce | lib/disciple-tools-ai-api.php:193-195 | across the location, user and post stages no prompt is emitted twice |
| Selection.Prompts | lib/disciple-tools-ai-api.php:177 | the prompts of the references, one per reference, in order |
| LlmFields.AsList | lib/disciple-tools-ai-api.php:1702-1708 | a scalar becomes a one-element list; a list stays as it is |
| Reshaper.MatchIndex | lib/disciple-tools-ai-api.php:1832-1834 | the first index whose pii_prompt is the value, absent exactly when none has it |
| Reshaper.MatchIndexAppend | lib/disciple-tools-ai-api.php:1830-1836 | the first match in a concatenation is the first in the left part, else the first in the right part shifted |
| Reshaper.MatchIndexAt | lib/disciple-tools-ai-api.php:1832-1834 | the first index holding the value is the one found |
| Reshaper.ExtractMultipleOption | lib/disciple-tools-ai-api.php:1828-1839 | as written: a found option has the value and is one of the references; nothing is found exactly when no reference has the value (the remaining case is the TypeError) |
| Reshaper.FirstOptionMatch | lib/disciple-tools-ai-api.php:1828-1839 | corrected: the first reference, over locations, users then posts, whose pii_prompt is the value; absent exactly when none has it |
| Reshaper.ExtractAgrees | lib/disciple-tools-ai-api.php:1828-1839 | wherever the lookup as written does not crash, it agrees with the corrected lookup |
| Reshaper.ExtractFoundAgrees | lib/disciple-tools-ai-api.php:1828-1839 | a found option is the reference at the first matching index |
| Reshaper.ExtractCrashes | lib/disciple-tools-ai-api.php:1828-1839 | the lookup as written crashes exactly when the first group holding a match does not hold it at index 0 |
| Reshaper.ExtractCrashExample | lib/disciple-tools-ai-api.php:158-185 | two chosen locations are mapped to two references; looking up the second crashes as written, and the corrected lookup finds it |
| Reshaper.TwoLocationsSelected | lib/disciple-tools-ai-api.php:158-185 | two chosen locations yield two references, in order, each with its chosen id |
| Reshaper.SecondLocationLookup | lib/disciple-tools-ai-api.php:1828-1839 | the value of the second of two references crashes the lookup as written and is found by the corrected one |
| Reshaper.Repeat | lib/disciple-tools-ai-api.php:1723-1729 | n copies of a character |
| Reshaper.FoldIntentsPrefix | lib/disciple-tools-ai-api.php:1718-1749 | the prefix is one '-' per NOT_EQUALS followed by one '*' per ANY, in whatever order they came |
| Reshaper.ApplyIntentPrefix | lib/disciple-tools-ai-api.php:1723-1729 | ANY appends '*', NOT_EQUALS prepends '-', any other intent leaves the prefix |
| Reshaper.ApplyIntentFields | lib/disciple-tools-ai-api.php:1719-1749 | an intent sets the status exactly when it is a status intent, and stops the values exactly when it is NOT_SET or a date intent |
| Reshaper.FoldIntentsLoop | lib/disciple-tools-ai-api.php:1718-1749 | values are emitted exactly when no intent is NOT_SET or a date intent |
| Reshaper.FoldIntentsNoStatus | lib/disciple-tools-ai-api.php:1718-1749 | the status is "" exactly when no intent is a status intent |
| Reshaper.FoldIntentsStatus | lib/disciple-tools-ai-api.php:1718-1749 | the status the intent loop leaves is the last status intent, else "" |
| Reshaper.LastStatusAt | lib/disciple-tools-ai-api.php:1718-1749 | a last status intent sits at an index after which no status intent follows |
| Reshaper.FoldIntentsLastStatus | lib/disciple-tools-ai-api.php:1718-1749 | otherwise the status is the last status intent |
| Reshaper.ReadIntents | lib/disciple-tools-ai-api.php:1715-1749 | the intent loop computes the status, prefix and loop flag |
| Reshaper.HitFails | lib/disciple-tools-ai-api.php:1766-1774 | resolving a value with the lookup as written fails exactly when that lookup crashes |
| Reshaper.HitResolution | lib/disciple-tools-ai-api.php:1766-1774 | wherever the lookup as written does not crash, a value resolves as with the corrected lookup: the first option id of the matching reference when it has options, else the PII mapping, else the value |
| Reshaper.HitWithoutOptions | lib/disciple-tools-ai-api.php:1766-1774 | with no options at all, both lookups resolve every value to its unmasked text |
| Reshaper.HitsOf | lib/disciple-tools-ai-api.php:1761-1781 | one hit per value, in order, each with the corrected lookup |
| Reshaper.PrefixedPointwise | lib/disciple-tools-ai-api.php:1761-1781 | each hit is emitted behind the intent prefix, one for one and in order |
| Reshaper.ResolvedPointwise | lib/disciple-tools-ai-api.php:1760-1782 | each value of a field becomes prefix + its hit, one for one and in order |
| Reshaper.ResolveValues | lib/disciple-tools-ai-api.php:1760-1782 | the value loop computes the prefixed hits of all values, in order |
| Reshaper.ExtractReshapedFieldValues | lib/disciple-tools-ai-api.php:1696-1790 | the whole function computes the status and, unless stopped, the prefixed hits |
| Reshaper.StatusValue | lib/disciple-tools-ai-api.php:1650-1678 | a status value exists exactly for the nine status intents |
| Reshaper.StatusValueLowered | lib/disciple-tools-ai-api.php:1650-1678 | it is the intent's name after `STATUS_`, lower-cased |
| Reshaper.ReshapeFieldsToQuery | lib/disciple-tools-ai-api.php:1618-1694 | the field loop and the status placement compute the query structure |
| Reshaper.FoldFieldsEntries | lib/disciple-tools-ai-api.php:1622-1643 | each key of a field with a key and a value appears, holding the values of all such fields with that key concatenated in field order; no other key appears |
| Reshaper.NoValuesForUnused | lib/disciple-tools-ai-api.php:1622-1643 | a key no usable field carries contributes no values |
| Reshaper.FoldFieldsDistinct | lib/disciple-tools-ai-api.php:1622-1643 | no key is emitted twice |
| Reshaper.LastUsable | lib/disciple-tools-ai-api.php:1623 | the last field with a key and a value, absent exactly when there is none |
| Reshaper.FoldFieldsStatus | lib/disciple-tools-ai-api.php:1641 | the status comes from the last usable field alone; an earlier field's status is discarded |
| Reshaper.WithStatusGet | lib/disciple-tools-ai-api.php:1646-1684 | a status value, when there is a status key, replaces what that key held; every other key keeps its values |
| Reshaper.ReshapedQueryGet | lib/disciple-tools-ai-api.php:1618-1694 | the query: the status key holds the lower-cased status of the last usable field when it has a status intent; every other key of a usable field holds the values of all usable fields with that key, in field order; no other key appears, and none twice |
| Reshaper.FoldFieldsKeys | lib/disciple-tools-ai-api.php:1622-1643 | the reshaped keys are the usable fields' keys in first-insertion order: the first occurrence of each, in field order |
| Reshaper.ReshapedQueryKeys | lib/disciple-tools-ai-api.php:1618-1694 | the query's single-key entries come in first-insertion order; a placed status key not already present comes last, one already present keeps its place |
| Reshaper.UnmaskValue | lib/disciple-tools-ai-api.php:1849-1857 | a list value is unmasked item by item; any other value yields no items |
| Reshaper.ConvertFilterFieldsFromObfuscatedToPlain | lib/disciple-tools-ai-api.php:1841-1866 | the triple loop computes the converted entries of all fields |
| Reshaper.ConvertField | lib/disciple-tools-ai-api.php:1847-1859 | one field's entries extend the converted entries of those before them |
| Reshaper.UnmaskItems | lib/disciple-tools-ai-api.php:1850-1856 | the innermost loop replaces each item by its mapping when it has one |
| Reshaper.ConvertEntriesGet | lib/disciple-tools-ai-api.php:1841-1866 | each key holds the unmasked values of its last occurrence (an earlier occurrence is reset); keys never occurring are absent |
| Reshaper.ConvertEntriesDistinct | lib/disciple-tools-ai-api.php:1841-1866 | no key is held twice |
| Retry.FieldsAttempt | lib/disciple-tools-ai-api.php:300-339 | an attempt that stops with fields has some; one that stops with an error carries the fixed prefix |
| Retry.ParsePromptForFields | lib/disciple-tools-ai-api.php:267-345 | the retry loop computes the result and the number of model calls |
| Retry.FieldsCalls | lib/disciple-tools-ai-api.php:267-345 | the model is asked once or twice, a second time exactly after an attempt that goes on |
| Retry.FieldsStopOnContent | lib/disciple-tools-ai-api.php:300-317 | a first reply whose cleansed content decodes to something ends the loop with it |
| Retry.FieldsStopOnError | lib/disciple-tools-ai-api.php:319-339 | an exception, a transport error or an error body ends the loop at once with an error naming it |
| Retry.FieldsFallback | lib/disciple-tools-ai-api.php:342-345 | two replies that decode to nothing yield the fallback error with the original prompt |
| Retry.FieldsResultShape | lib/disciple-tools-ai-api.php:267-345 | the result is either non-empty fields decoded from the last attempt's cleansed content, or an error with the fixed prefix |
| Retry.HandleCreateFilterRequest | lib/disciple-tools-ai-api.php:718-769 | the retry loop computes the response and the number of dispatches |
| Retry.CreateFilterProps | lib/disciple-tools-ai-api.php:718-769 | at most two dispatches; the first non-empty decoding wins; the result is empty exactly when both decode to nothing |
| Retry.CreateFilterEmpty | lib/disciple-tools-ai-api.php:718-769 | two failed attempts of any kind leave `[]` |
| GeoJson.ConvertPostsToGeoJson | lib/disciple-tools-ai-api.php:977-1011 | the post loop computes the feature collection of all posts |
| GeoJson.AddPostFeatures | lib/disciple-tools-ai-api.php:983-1007 | the location loop appends one post's features |
| GeoJson.LocationFeaturesSound | lib/disciple-tools-ai-api.php:983-1007 | every feature comes from a located entry: its longitude, latitude, altitude 1, and the post's name, else the entry's label |
| GeoJson.LocationFeaturesComplete | lib/disciple-tools-ai-api.php:983-1007 | every located entry gives a feature |
| GeoJson.LocationFeaturesCount | lib/disciple-tools-ai-api.php:983-1007 | one feature per located entry and no other |
| GeoJson.FeaturesPositioned | lib/disciple-tools-ai-api.php:977-1011 | every feature has a non-empty longitude and latitude, altitude 1, the post type, and the id of one of the posts |
| GeoJson.NoLocationsNoFeatures | lib/disciple-tools-ai-api.php:981-984 | posts without location metadata contribute nothing |
| AiChat.DescribeOptions | magic-link/ai-chat-control/ai-chat.php:339-347 | the shown options keep the keys; a labelled option shows its label, anything else itself |
| AiChat.ShownOptions | magic-link/ai-chat-control/ai-chat.php:339-347 | the option loop computes the shown options |
| AiChat.BuildFieldsDescription | magic-link/ai-chat-control/ai-chat.php:327-366 | the field loop computes the description list |
| AiChat.DescriptionsExact | magic-link/ai-chat-control/ai-chat.php:327-366 | the description lists exactly the named fields other than `title`, in settings order |
| AiChat.DescribeOptionsOnlyForSelects | magic-link/ai-chat-control/ai-chat.php:330-361 | options appear exactly for key_select and multi_select fields with a default array; the type defaults to `text` |
| AiChat.ContactDetailsWrapped | magic-link/ai-chat-control/ai-chat.php:474-501 | the details are parenthesised exactly when there is something to show |
| AiChat.ContactDetailsPhonesFirst | magic-link/ai-chat-control/ai-chat.php:474-501 | with phones, the details are the phones and nothing else is consulted |
| AiChat.ContactDetailsFallbacks | magic-link/ai-chat-control/ai-chat.php:474-501 | without phones the e-mails are used; without either, the first location's label |
| AiChat.Choices | magic-link/ai-chat-control/ai-chat.php:471-507 | one choice per found contact, with its id, name and details |
| AiChat.BuildContactsList | magic-link/ai-chat-control/ai-chat.php:471-507 | the contact loop computes the choices |
| AiChat.ResolveContact | magic-link/ai-chat-control/ai-chat.php:429-517 | no name stops; a non-empty selection reads the chosen record; otherwise the search decides, each case exactly: a failed search fails, no hit is "Contact '<name>' not found", several hits are offered as choices with the original command, and a single hit is the contact |
| AiChat.FirstOption | magic-link/ai-chat-control/ai-chat.php:701-721 | the key of the first option whose label passes, absent exactly when none passes |
| AiChat.LastOption | magic-link/ai-chat-control/ai-chat.php:705-713 | the key of the last option whose label passes, absent exactly when none passes (`break` leaves only the inner loop) |
| AiChat.FirstOptionAt | magic-link/ai-chat-control/ai-chat.php:701-721 | the first option whose label passes is the one picked |
| AiChat.FirstLabel | magic-link/ai-chat-control/ai-chat.php:714-720 | one pass over the options for a scalar picks the first passing option |
| AiChat.LastLabel | magic-link/ai-chat-control/ai-chat.php:705-713 | one pass for a list value picks the last option some value matches |
| AiChat.AnyValueMatches | magic-link/ai-chat-control/ai-chat.php:707-712 | the inner loop finds whether some value matches the label |
| AiChat.MatchLabel | magic-link/ai-chat-control/ai-chat.php:699-748 | exact label matches are tried first, then partial ones |
| AiChat.KeySelect | magic-link/ai-chat-control/ai-chat.php:689-752 | a valid key is kept; without options the raw value is kept; any other result is a key of the options |
| AiChat.ValuesOf | magic-link/ai-chat-control/ai-chat.php:674-687 | a list keeps its order, a string becomes a one-element list, anything else is dropped |
| AiChat.Coerce | magic-link/ai-chat-control/ai-chat.php:673-797 | text is kept, boolean is cast, number is kept when numeric and 0 otherwise, unhandled types are dropped |
| AiChat.CoerceField | magic-link/ai-chat-control/ai-chat.php:673-797 | the type switch computes the coerced update |
| AiChat.BuildUpdateFields | magic-link/ai-chat-control/ai-chat.php:659-798 | the update loop computes the update fields |
| AiChat.UpdateFieldsShape | magic-link/ai-chat-control/ai-chat.php:659-798 | `overall_status` stays the first key, and no key appears twice |
| AiChat.UpdateFieldsStep | magic-link/ai-chat-control/ai-chat.php:665-797 | one more update assigns its coerced value, if any |
| AiChat.UpdateFieldsUnset | magic-link/ai-chat-control/ai-chat.php:659-798 | a key no update sets is absent, except `overall_status`, which stays "active" |
| AiChat.UpdateFieldsLastWins | magic-link/ai-chat-control/ai-chat.php:659-798 | the last update that sets a key decides its value |
| AiChat.UpdatedNamesCount | magic-link/ai-chat-control/ai-chat.php:827-838 | with the status first and no key twice, one name per remaining key, in order: its lower-cased setting name, else the key |
| AiChat.NamesWithoutStatus | magic-link/ai-chat-control/ai-chat.php:830-837 | without the status key, every key is named, one for one and in order |
| AiChat.ResultMessage | magic-link/ai-chat-control/ai-chat.php:826-844 | "Updated <title>", then " with updated " and the names of the non-status keys joined by ", " when there is more than the status, then the meeting-notes suffix for a "met" command with a message |
| AiChat.ResultMessageNames | magic-link/ai-chat-control/ai-chat.php:826-844 | after an update the message starts with "Updated <title>" and names each field beside `overall_status`, in update order, lower-cased name or key; no field when only the status is set |
| AiChat.OnlyStatusMessage | magic-link/ai-chat-control/ai-chat.php:827-844 | with only the status updated, the message names no field |
| AiChat.MeetingComment | magic-link/ai-chat-control/ai-chat.php:807-813 | the meeting comment is the notes when there are any, else the fixed text |
| AiChat.NoteComment | magic-link/ai-chat-control/ai-chat.php:523-529 | the note is the message when there is one, else the command |
| AiChat.ProcessChatCommand | magic-link/ai-chat-control/ai-chat.php:312-847 | an empty command is refused; a failed interpretation is a model failure; an unresolved contact answers with the resolution itself (its message and choices); a resolved contact with the "none" action gets exactly the note "Note: " + message (else the command), reported as added or failed; with another action, a failed analysis fails, a failed update is "Failed to update contact: " + the store's message, and a successful one carries the coerced fields, the meeting comment exactly for "met", and the result message with the contact's data unless that comment fails |
| AiChat.UnresolvedChangesNothing | magic-link/ai-chat-control/ai-chat.php:439-517 | a contact that cannot be resolved leaves the record untouched: the answer is the resolution, with its not-found or ambiguity message and choices |
| ListApp.Coalesce | magic-link/magic-link-ai-list-app.php:471-475 | `$m[$k] ?? $d` gives the set value, else the default |
| ListApp.Member | magic-link/magic-link-ai-list-app.php:444-445 | a member of a non-array or a missing member is null |
| ListApp.CreateFilterResponseShape | magic-link/magic-link-ai-list-app.php:454-477 | a multiple-options answer is handed back untouched; any other answer becomes success with the five members, each its own when set and `[]` otherwise |
| ListApp.CreateFilter | magic-link/magic-link-ai-list-app.php:429-451 | missing parameters are refused exactly when one of the four is absent; the selections path fails; otherwise the answer is the reshaped pipeline response |
| ListApp.KeepKeys | magic-link/magic-link-ai-list-app.php:591-610 | the kept entries are exactly the row's entries with a listed key |
| ListApp.ProjectLocationKeys | magic-link/magic-link-ai-list-app.php:591-610 | a projected row has only location keys from the row; `grid_id` survives exactly when one of the five keys is missing |
| ListApp.UnescapeAge | magic-link/magic-link-ai-list-app.php:568-571 | only the `age` field is unescaped, and it always ends up with a value |
| ListApp.Package | magic-link/magic-link-ai-list-app.php:573-616 | copied types are copied and channels forced; a location field's rows are each projected onto the location keys (grid_id kept when one of the five is missing) and forced; a location field given a string is the only failure (array_map on a string); unhandled types give nothing |
| ListApp.Step | magic-link/magic-link-ai-list-app.php:567-618 | a failure, once raised, stays |
| ListApp.StepSuccess | magic-link/magic-link-ai-list-app.php:567-618 | a successful turn assigns the field's contribution, if any |
| ListApp.PackageFieldUpdates | magic-link/magic-link-ai-list-app.php:566-618 | the field loop computes the packaged updates |
| ListApp.UpdatesFailurePersists | magic-link/magic-link-ai-list-app.php:566-618 | a failure on the first fields is the failure of the whole loop |
| ListApp.UpdatesAbsent | magic-link/magic-link-ai-list-app.php:566-618 | an id no field carries is absent from the updates |
| ListApp.UpdatesLastWins | magic-link/magic-link-ai-list-app.php:566-618 | the last field with an id decides it |
| ListApp.PackagedFailure | magic-link/magic-link-ai-list-app.php:589-610 | only a location field whose value is a plain string fails to package |
| ListApp.UpdatesFailure | magic-link/magic-link-ai-list-app.php:566-618 | the loop fails exactly when some field fails to package |
| ListApp.UpdateRecord | magic-link/magic-link-ai-list-app.php:549-633 | each outcome exactly: missing parameters when one of the six is absent; otherwise the packaging failure when packaging fails, else an answer; the answer succeeds exactly when the store returns a non-empty post, which is then returned, with an empty message |
| DataSpecs.GetData | data/data.php:46-62 | the file loop computes the stored lines |
| DataSpecs.DataSound | data/data.php:46-62 | every stored line comes from a kept line of the file |
| DataSpecs.DataComplete | data/data.php:46-62 | every kept line of the file is stored |
| DataSpecs.DataCount | data/data.php:46-62 | one stored line per kept line |
| DataSpecs.EscapedRoundTrip | data/data.php:53-54 | an escaped stored line unescapes to the trimmed, non-blank text of its file line |
| DataSpecs.ReshapeExamples | data/data.php:64-81 | the example loop computes the reshaped examples |
| DataSpecs.ReshapedEntries | data/data.php:64-81 | one entry per example, after the `Examples` header when there is one |
| DataSpecs.EntryAt | data/data.php:71-78 | example k becomes entry k |
| DataSpecs.EntrySplit | data/data.php:72-78 | an example with one delimiter is the query, the delimiter and the output; the entry shows both trimmed |
| DataSpecs.EntryWithoutDelimiter | data/data.php:72-78 | without the delimiter the whole example is the query and the output is empty |
| DataSpecs.MapStringsIndex | data/data.php:71-79 | mapping keeps the length, entry by entry |
| DataSpecs.SpecsAllLines | data/data.php:108-112 | with no part empty, the specification is every line of every part, in order, joined by the literal backslash-n |
| DataSpecs.SpecsBounds | data/data.php:108-112 | the specification opens with the brief and closes with the examples |
| DataSpecs.BuildFilterQuerySpecs | data/data.php:83-112 | reading the five parts and joining them computes the stored specification |
| DataSpecs.SpecsEndInExamples | data/data.php:100-110 | the examples always contribute their header, so the specification ends with it |

## Left out

- Network calls to the language model, the transcription endpoint and the mapping/post database are external; their answers are parameters (reply functions, search functions, oracles).
- `similar_text`, `filter_var( FILTER_VALIDATE_EMAIL )`, the phone regex battery, `strtotime`/`gmdate`, `is_numeric` and the scrambled-key generator are not modelled; they are function-typed parameters.
- `preg_split` tokenisation and the address, postal-code, e-mail and phone regex extraction stages are taken as given inputs (token sequences and pattern hits). `parse_prompt_for_pii_emails` and `parse_prompt_for_pii_phone_numbers` are modelled only through their validators.
- `generate_post_names` and `generate_location_names` are database queries; their outputs are inputs.
- `parse_prompt_for_connections` (lib/disciple-tools-ai-api.php:772-861) is a third copy of the retry pattern and is not modelled.
- `list_posts` and `list_posts_with_selections` (lines 348-618) are unreachable after their early returns (lines 350 and 533), and `simplified_convert_filter_fields_from_obfuscated_to_plain` (lines 1792-1826) is never called; the lib `handle_create_filter_request` and `convert_filter_fields_from_obfuscated_to_plain` are reached only from that unreachable code, and are modelled anyway.
- PHP's loose comparisons (`in_array`, `array_search`, `switch`) are modelled as strict string equality; numeric-string juggling is not captured.
- `dt_recursive_sanitize_array`, `sanitize_text_field` and the `_x()` translations are taken as the identity.
- `update_user_logged_in_state`, `get_post`, `comment` and the permission callbacks of the endpoints are not modelled.
- JSON decoding, `json_encode` and nested JSON values are abstracted: field values are strings or lists of strings, and chat updates are strings, booleans or lists.
- `DATES_*` intents are modelled as "emit no values", as the source does; the dates themselves are never extracted.
- ListApp.CreateFilter: the selections path calls `list_posts_with_selections` with three of its five parameters, which PHP rejects; the model records that outcome and does not model what that call would return.
- PhpStr.Explode: only non-empty delimiters, the only kind the source uses (`explode('', …)` throws in PHP 8).
- The filter pipeline resolves values with the corrected lookup (see Findings); the TypeError of the lookup as written is exhibited by Reshaper.HitAsWritten, Reshaper.HitFails and Reshaper.ExtractCrashExample, not carried through the pipeline.
- Retry.FieldsResultShape: `decode` yields a list, so a decoding to a non-empty JSON scalar (`"x"`, `5`, `true`), which `parse_prompt_for_fields` returns from a function declared `: array` and PHP rejects with a TypeError, is not represented.
- Retry.CreateFilterProps: likewise, `handle_create_filter_request` returns a scalar decoding (empty or not, such as `""`, `0` or `false`) unchanged through `$response ?? []`, a TypeError for its `: array` return; the model's empty result stands only for `null` and `[]`.
- AiChat.Coerce: a date field given a list value calls `strtotime` on an array (magic-link/ai-chat-control/ai-chat.php:763-765), an uncaught TypeError in PHP 8; the model drops that field instead of failing the request, and treats a boolean as an unparseable date.
- Logging is not modelled: `dt_write_log` in the list app's default branch and in the create-filter catch, and `error_log` in the chat command. `update_option` in `build_filter_query_specs` is represented only by the value it stores.
- Strings are sequences of characters; byte-level `strlen` on multi-byte text and Unicode case folding in `strcasecmp`/`stripos` are not modelled (ASCII lowering only).
- Integer widths do not matter in this core: every count (digit counts, lengths, at most two retries) stays far below 2^63.

## Findings

| source | as written | input that shows it | evidently intended | confidence | as-written member | corrected member |
|---|---|---|---|---|---|---|
| lib/disciple-tools-ai-api.php:1828-1839 | `array_filter` keeps the original keys, and `$extracted_option[0]` is then read; when the first match in its group is not at index 0, that element is undefined, and the `null` returned from a function declared `: array` raises a TypeError | two location selections, "Paris" then "Lyon"; a field value "Lyon" (its pii_prompt) looks up the second reference | return the first matching reference, over locations, users then posts | not executed | Reshaper.ExtractMultipleOption, Reshaper.HitAsWritten, Reshaper.HitFails, Reshaper.ExtractCrashExample | Reshaper.FirstOptionMatch, Reshaper.Hit, Reshaper.HitResolution |
