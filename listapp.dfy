/**
 * The list app's REST handlers: `create_filter` (parameter check and
 * dispatch), `handle_create_filter_request` (the response it hands back)
 * and `update_record` (packaging the edited fields for the post store).
 */
module ListApp {
  import opened Wrappers
  import opened PhpStr
  import opened Assoc

  /** A request parameter or response member: null, a string, a list or a keyed array. */
  datatype Payload = PNull | PText(s: string) | PList(items: seq<Payload>) | PMap(entries: seq<(string, Payload)>)

  /** `isset( $m[$k] )`: present and not null. */
  predicate IsSet(m: seq<(string, Payload)>, k: string)
  {
    Get(m, k).Some? && !Get(m, k).value.PNull?
  }

  /** `$m[$k] ?? $d`. */
  function Coalesce(m: seq<(string, Payload)>, k: string, d: Payload): (r: Payload)
    ensures IsSet(m, k) ==> r == Get(m, k).value
    ensures !IsSet(m, k) ==> r == d
  {
    match Get(m, k)
    case Some(v) => if v.PNull? then d else v
    case None => d
  }

  /** `$v[$k]` on a member that may not be an array: null unless v is an array holding k. */
  function Member(v: Payload, k: string): (r: Payload)
    ensures v.PMap? && k in Keys(v.entries) ==> r == Get(v.entries, k).value
    ensures !v.PMap? || k !in Keys(v.entries) ==> r == PNull
  {
    if v.PMap? then Get(v.entries, k).GetOr(PNull) else PNull
  }

  // ---------------------------------------------------------------------
  // create_filter and handle_create_filter_request
  // ---------------------------------------------------------------------

  /** The five members a successful create-filter answer carries, in order. */
  const ResponseMembers: seq<string> := ["prompt", "pii", "connections", "filter", "posts"]

  /** `'k' => $response['k'] ?? []` for each key of ks, in order. */
  function Members(response: seq<(string, Payload)>, ks: seq<string>): seq<(string, Payload)>
    decreases |ks|
  {
    if |ks| == 0 then [] else [(ks[0], Coalesce(response, ks[0], PList([])))] + Members(response, ks[1..])
  }

  /** The response of handle_create_filter_request to what list_posts returned. */
  function CreateFilterResponse(response: seq<(string, Payload)>): seq<(string, Payload)>
  {
    if Get(response, "status") == Some(PText("multiple_options_detected")) then response
    else [("status", PText("success"))] + Members(response, ResponseMembers)
  }

  lemma {:induction false} MembersKeys(response: seq<(string, Payload)>, ks: seq<string>)
    ensures Keys(Members(response, ks)) == ks
    ensures forall i :: 0 <= i < |ks| ==> Members(response, ks)[i].1 == Coalesce(response, ks[i], PList([]))
    decreases |ks|
  {
    if |ks| > 0 {
      var m := Members(response, ks);
      MembersKeys(response, ks[1..]);
      assert m[1..] == Members(response, ks[1..]);
      assert Keys(m) == [ks[0]] + Keys(m[1..]);
      assert ks == [ks[0]] + ks[1..];
    }
  }

  lemma ResponseKeysDistinct()
    ensures Distinct(["status"] + ResponseMembers)
  {
    var ks := ["status"] + ResponseMembers;
    assert forall i :: 0 <= i < |ks| ==> |ks[i]| == [6, 6, 3, 11, 6, 5][i];
    assert ks[0][0] == 's' && ks[1][0] == 'p' && ks[4][0] == 'f';
  }

  /**
   * A `multiple_options_detected` answer is handed back untouched; any
   * other answer, an error included, becomes a success carrying the five
   * members, each the answer's own when set and `[]` otherwise.
   */
  lemma CreateFilterResponseShape(response: seq<(string, Payload)>)
    ensures Get(response, "status") == Some(PText("multiple_options_detected"))
            ==> CreateFilterResponse(response) == response
    ensures Get(response, "status") != Some(PText("multiple_options_detected"))
            ==> var r := CreateFilterResponse(response);
                && Keys(r) == ["status"] + ResponseMembers
                && Get(r, "status") == Some(PText("success"))
                && forall k :: k in ResponseMembers ==>
                     Get(r, k) == Some(if IsSet(response, k) then Get(response, k).value else PList([]))
  {
    if Get(response, "status") != Some(PText("multiple_options_detected")) {
      var m := Members(response, ResponseMembers);
      var r := [("status", PText("success"))] + m;
      MembersKeys(response, ResponseMembers);
      assert r[1..] == m;
      assert Keys(r) == ["status"] + Keys(m);
      ResponseKeysDistinct();
      forall i | 0 <= i < |ResponseMembers|
        ensures Get(r, ResponseMembers[i]) == Some(Coalesce(response, ResponseMembers[i], PList([])))
      {
        GetAt(r, i + 1);
      }
    }
  }

  datatype CreateFilterOutcome =
    | MissingParameters                       // HTTP 400 "Missing parameters"
    | SelectionsCallFails                     // the selections path calls list_posts_with_selections with 3 of its 5 arguments
    | Answered(response: seq<(string, Payload)>)

  /**
   * `listPosts( post_type, prompt )` is the whole filter pipeline of
   * list_posts (modelled on its own in the Selection and Reshaper modules).
   */
  function CreateFilter(params: seq<(string, Payload)>,
                        listPosts: (Payload, Payload) -> seq<(string, Payload)>): (r: CreateFilterOutcome)
    ensures r == MissingParameters
            <==> !(IsSet(params, "filter") && IsSet(params, "parts") && IsSet(params, "action") && IsSet(params, "sys_type"))
    ensures r == SelectionsCallFails
            <==> r != MissingParameters && !Member(Get(params, "filter").value, "selections").PNull?
    ensures r.Answered? ==> r.response == CreateFilterResponse(listPosts(
                              Member(Get(params, "filter").value, "post_type"),
                              Member(Get(params, "filter").value, "prompt")))
  {
    if !(IsSet(params, "filter") && IsSet(params, "parts") && IsSet(params, "action") && IsSet(params, "sys_type")) then
      MissingParameters
    else
      var filter := Get(params, "filter").value;
      if !Member(filter, "selections").PNull? then SelectionsCallFails
      else Answered(CreateFilterResponse(listPosts(Member(filter, "post_type"), Member(filter, "prompt"))))
  }

  // ---------------------------------------------------------------------
  // update_record
  // ---------------------------------------------------------------------

  /** A field value sent by the app: a string, or a list of keyed rows (channels, locations). */
  datatype FieldValue = Text(s: string) | Rows(rows: seq<seq<(string, string)>>)

  /** `{id, type, value}`; a missing value is None. */
  datatype FormField = FormField(id: string, fieldType: string, value: Option<FieldValue>)

  /** What one field becomes in `$updates`: the value itself, or `{values, force_values: true}`. */
  datatype Packed = Copied(value: FieldValue) | Forced(values: FieldValue)

  const CopiedTypes: seq<string> :=
    ["text", "textarea", "number", "date", "datetime", "boolean", "key_select", "multi_select"]

  const LocationKeys: seq<string> := ["lat", "lng", "label", "level", "source"]

  const LocationKeysWithGrid: seq<string> := LocationKeys + ["grid_id"]

  /** `array_intersect_key( $row, array_fill_keys( $keys, null ) )`: the row's entries whose key is listed, in row order. */
  function KeepKeys(row: seq<(string, string)>, keys: seq<string>): (r: seq<(string, string)>)
    ensures forall e :: e in r <==> e in row && e.0 in keys
    ensures |r| <= |row|
  {
    if |row| == 0 then []
    else (if row[0].0 in keys then [row[0]] else []) + KeepKeys(row[1..], keys)
  }

  /** A location row keeps the five location keys, and `grid_id` too unless all five are there. */
  function ProjectLocation(row: seq<(string, string)>): seq<(string, string)>
  {
    if forall k :: k in LocationKeys ==> k in Keys(row) then KeepKeys(row, LocationKeys)
    else KeepKeys(row, LocationKeysWithGrid)
  }

  /**
   * A projected row holds only location keys from the row; `grid_id`
   * survives exactly when one of the five is missing (and the row has it).
   */
  lemma ProjectLocationKeys(row: seq<(string, string)>)
    ensures forall e :: e in ProjectLocation(row) ==> e in row && e.0 in LocationKeysWithGrid
    ensures (forall k :: k in LocationKeys ==> k in Keys(row))
            ==> forall e :: e in ProjectLocation(row) ==> e.0 != "grid_id"
    ensures (exists k :: k in LocationKeys && k !in Keys(row))
            ==> forall e :: e in row && e.0 in LocationKeysWithGrid ==> e in ProjectLocation(row)
  {
  }

  /** `&lt;` and `&gt;` unescaped in the `age` field; a missing value becomes "" (str_replace on null). */
  function UnescapeAge(f: FormField): (r: FormField)
    ensures f.id != "age" ==> r == f
    ensures f.id == "age" ==> r.value.Some? && r.id == f.id && r.fieldType == f.fieldType
  {
    if f.id != "age" then f
    else
      var v := match f.value
               case None => Text("")
               case Some(Text(s)) => Text(StrReplace("&gt;", ">", StrReplace("&lt;", "<", s)))
               case Some(Rows(rows)) => Rows(rows);
      FormField(f.id, f.fieldType, Some(v))
  }

  /**
   * The `switch ( $field['type'] )` for a field with a value: None for an
   * unhandled type; Failure where `array_map` is given a string.
   */
  function Package(fieldType: string, v: FieldValue): (r: Result<Option<Packed>>)
    ensures fieldType in CopiedTypes ==> r == Success(Some(Copied(v)))
    ensures fieldType == "communication_channel" ==> r == Success(Some(Forced(v)))
    ensures fieldType == "location_meta" && v.Text? ==> r.Failure?
    ensures fieldType == "location_meta" && v.Rows?
            ==> && r.Success? && r.value.Some? && r.value.value.Forced? && r.value.value.values.Rows?
                && var rows := r.value.value.values.rows;
                   |rows| == |v.rows| && forall k :: 0 <= k < |rows| ==> rows[k] == ProjectLocation(v.rows[k])
    ensures fieldType !in CopiedTypes && fieldType != "communication_channel" && fieldType != "location_meta"
            ==> r == Success(None)
    ensures r.Failure? <==> fieldType == "location_meta" && v.Text?
  {
    if fieldType in CopiedTypes then Success(Some(Copied(v)))
    else if fieldType == "communication_channel" then Success(Some(Forced(v)))
    else if fieldType == "location_meta" then
      match v
      case Text(_) => Failure("TypeError: array_map(): Argument #2 ($array) must be of type array")
      case Rows(rows) => Success(Some(Forced(Rows(seq(|rows|, k requires 0 <= k < |rows| => ProjectLocation(rows[k]))))))
    else Success(None)
  }

  /** One field's outcome: nothing without a value (after the age unescape), else its packaging. */
  function Packaged(f: FormField): Result<Option<Packed>>
  {
    var g := UnescapeAge(f);
    if g.value.None? then Success(None) else Package(g.fieldType, g.value.value)
  }

  /** One turn of the loop over the edited fields. */
  function Step(acc: Result<seq<(string, Packed)>>, f: FormField): (r: Result<seq<(string, Packed)>>)
    ensures acc.Failure? ==> r == acc
  {
    match acc
    case Failure(_) => acc
    case Success(updates) =>
      match Packaged(f)
      case Failure(e) => Failure(e)
      case Success(None) => acc
      case Success(Some(p)) => Success(Put(updates, f.id, p))
  }

  /** `$updates` after the loop over the edited fields, or the failure that stops it. */
  function Updates(fields: seq<FormField>): Result<seq<(string, Packed)>>
    decreases |fields|
  {
    if |fields| == 0 then Success([]) else Step(Updates(fields[..|fields| - 1]), fields[|fields| - 1])
  }

  lemma {:induction false} UpdatesFailurePersists(fields: seq<FormField>, n: nat)
    requires n <= |fields| && Updates(fields[..n]).Failure?
    ensures Updates(fields) == Updates(fields[..n])
    decreases |fields| - n
  {
    if n < |fields| {
      var next := fields[..n + 1];
      assert next[..n] == fields[..n];
      assert Updates(next) == Step(Updates(fields[..n]), next[n]);
      UpdatesFailurePersists(fields, n + 1);
    } else {
      assert fields[..n] == fields;
    }
  }

  method PackageFieldUpdates(fields: seq<FormField>) returns (r: Result<seq<(string, Packed)>>)
    ensures r == Updates(fields)
  {
    var updates: seq<(string, Packed)> := [];
    for i := 0 to |fields|
      invariant Updates(fields[..i]) == Success(updates)
    {
      assert fields[..i + 1][..i] == fields[..i];
      var field := fields[i];
      if field.id == "age" {
        var v := match field.value
                 case None => Text("")
                 case Some(Text(s)) => Text(StrReplace("&gt;", ">", StrReplace("&lt;", "<", s)))
                 case Some(Rows(rows)) => Rows(rows);
        field := FormField(field.id, field.fieldType, Some(v));
      }
      if field.value.Some? {
        var p := Package(field.fieldType, field.value.value);
        assert p == Packaged(fields[i]);
        if p.Failure? {
          UpdatesFailurePersists(fields, i + 1);
          return Failure(p.error);
        }
        if p.value.Some? {
          updates := Put(updates, field.id, p.value.value);
        }
      } else {
        assert Packaged(fields[i]) == Success(None);
      }
    }
    assert fields[..|fields|] == fields;
    r := Success(updates);
  }

  /** What a field contributes, if it contributes: its packaging after the age unescape. */
  function Contribution(f: FormField): Option<Packed>
  {
    match Packaged(f)
    case Success(p) => p
    case Failure(_) => None
  }

  lemma StepSuccess(acc: Result<seq<(string, Packed)>>, f: FormField)
    requires Step(acc, f).Success?
    ensures acc.Success?
    ensures Step(acc, f).value == if Contribution(f).Some? then Put(acc.value, f.id, Contribution(f).value) else acc.value
  {
  }

  lemma StepFailure(acc: Result<seq<(string, Packed)>>, f: FormField)
    ensures Step(acc, f).Failure? <==> acc.Failure? || Packaged(f).Failure?
  {
  }

  predicate Ids(fields: seq<FormField>, k: int, id: string)
    requires 0 <= k < |fields|
  {
    fields[k].id == id
  }

  /** An id no field carries is absent from `$updates`. */
  lemma {:induction false} UpdatesAbsent(fields: seq<FormField>, id: string)
    requires Updates(fields).Success?
    requires forall k :: 0 <= k < |fields| ==> !Ids(fields, k, id)
    ensures Get(Updates(fields).value, id).None?
    decreases |fields|
  {
    if |fields| > 0 {
      var n := |fields| - 1;
      var init := fields[..n];
      assert Updates(fields) == Step(Updates(init), fields[n]);
      StepSuccess(Updates(init), fields[n]);
      assert forall k :: 0 <= k < n ==> !Ids(init, k, id) by {
        forall k | 0 <= k < n ensures !Ids(init, k, id) {
          assert init[k] == fields[k];
          assert !Ids(fields, k, id);
        }
      }
      UpdatesAbsent(init, id);
      assert !Ids(fields, n, id);
      var c := Contribution(fields[n]);
      if c.Some? {
        PutGet(Updates(init).value, fields[n].id, c.value, id);
      }
    }
  }

  /**
   * When the loop completes, the last field with a given id decides it:
   * that field's contribution when it has one.
   */
  lemma {:induction false} UpdatesLastWins(fields: seq<FormField>, id: string, k: nat)
    requires Updates(fields).Success?
    requires k < |fields| && Ids(fields, k, id) && Contribution(fields[k]).Some?
    requires forall j :: k < j < |fields| ==> !Ids(fields, j, id)
    ensures Get(Updates(fields).value, id) == Contribution(fields[k])
    decreases |fields|
  {
    var n := |fields| - 1;
    var init := fields[..n];
    assert Updates(fields) == Step(Updates(init), fields[n]);
    StepSuccess(Updates(init), fields[n]);
    var c := Contribution(fields[n]);
    if k == n {
      PutGet(Updates(init).value, fields[n].id, c.value, id);
    } else {
      assert init[k] == fields[k];
      assert Ids(init, k, id);
      assert forall j :: k < j < n ==> !Ids(init, j, id) by {
        forall j | k < j < n ensures !Ids(init, j, id) {
          assert init[j] == fields[j];
          assert !Ids(fields, j, id);
        }
      }
      UpdatesLastWins(init, id, k);
      assert !Ids(fields, n, id);
      if c.Some? {
        PutGet(Updates(init).value, fields[n].id, c.value, id);
      }
    }
  }

  /** Only a location field whose value is a plain string fails to package. */
  lemma PackagedFailure(f: FormField)
    ensures Packaged(f).Failure? <==> f.fieldType == "location_meta" && UnescapeAge(f).value.Some?
                                      && UnescapeAge(f).value.value.Text?
  {
  }

  /** The loop fails exactly when some field fails to package. */
  lemma {:induction false} UpdatesFailure(fields: seq<FormField>)
    ensures Updates(fields).Failure?
            <==> exists k :: 0 <= k < |fields| && Packaged(fields[k]).Failure?
    decreases |fields|
  {
    if |fields| > 0 {
      var n := |fields| - 1;
      var init := fields[..n];
      assert forall k :: 0 <= k < n ==> init[k] == fields[k];
      assert Updates(fields) == Step(Updates(init), fields[n]);
      StepFailure(Updates(init), fields[n]);
      UpdatesFailure(init);
    }
  }

  /** What the post store answers to the update. */
  datatype StoreReply = StoreError | EmptyPost | StoredPost(post: seq<(string, Payload)>)

  datatype UpdateRecordOutcome =
    | RecordMissingParameters                                     // HTTP 400
    | RecordFailed(error: string)                                 // an uncaught TypeError
    | RecordAnswer(success: bool, message: string, post: Option<seq<(string, Payload)>>)

  const RecordParameters: seq<string> := ["post_id", "post_type", "parts", "action", "fields", "sys_type"]

  /**
   * `fields` are the entries of `fields.dt` (none when it is not set);
   * `store` is `DT_Posts::update_post` applied to the packaged updates.
   */
  function UpdateRecord(params: seq<(string, Payload)>, fields: seq<FormField>,
                        store: seq<(string, Packed)> -> StoreReply): (r: UpdateRecordOutcome)
    ensures r == RecordMissingParameters <==> exists k :: k in RecordParameters && !IsSet(params, k)
    ensures r.RecordFailed? <==> !(exists k :: k in RecordParameters && !IsSet(params, k)) && Updates(fields).Failure?
    ensures r.RecordFailed? ==> r.error == Updates(fields).error
    ensures r.RecordAnswer? <==> !(exists k :: k in RecordParameters && !IsSet(params, k)) && Updates(fields).Success?
    ensures r.RecordAnswer? ==> Updates(fields).Success?
                                && (r.success <==> store(Updates(fields).value).StoredPost?
                                                   && |store(Updates(fields).value).post| > 0)
                                && (r.post.Some? <==> r.success)
                                && (r.success ==> r.post == Some(store(Updates(fields).value).post))
                                && r.message == ""
  {
    if exists k :: k in RecordParameters && !IsSet(params, k) then RecordMissingParameters
    else
      match Updates(fields)
      case Failure(e) => RecordFailed(e)
      case Success(updates) =>
        var stored := store(updates);
        var success := !(stored.EmptyPost? || stored.StoreError? || (stored.StoredPost? && |stored.post| == 0));
        RecordAnswer(success, "", if success then Some(stored.post) else None)
  }
}
