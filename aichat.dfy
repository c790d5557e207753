/**
 * The non-HTTP parts of the chat command (`process_chat_command`): the
 * field description handed to the model, the disambiguation of the named
 * contact, the coercion of the model's field values into an update
 * payload according to each field's type, and the result message.
 */
module AiChat {
  import opened Wrappers
  import opened PhpStr
  import opened Assoc

  // ---------------------------------------------------------------------
  // Field settings and the field description
  // ---------------------------------------------------------------------

  /** One entry of a field's `default` options: an array with a label, an array without one, or a bare value. */
  datatype OptionValue = Labelled(caption: string) | Unlabelled | Bare(text: string)

  /** A field's settings: `name`, `type` and `default`, each possibly missing (`default` is None unless an array). */
  datatype FieldSetting = FieldSetting(name: Option<string>, fieldType: Option<string>,
                                       defaults: Option<seq<(string, OptionValue)>>)

  /** `$settings['type'] ?? 'text'`. */
  function TypeOf(s: FieldSetting): string
  {
    s.fieldType.GetOr("text")
  }

  /** `{key, name, type[, options]}` for one field. */
  datatype Description = Description(key: string, name: string, fieldType: string,
                                     options: Option<seq<(string, OptionValue)>>)

  /** The option list a description shows: a labelled array shows its label, anything else itself. */
  function DescribeOptions(opts: seq<(string, OptionValue)>): (r: seq<(string, OptionValue)>)
    ensures |r| == |opts|
    ensures forall k :: 0 <= k < |opts| ==> r[k].0 == opts[k].0
    ensures forall k :: 0 <= k < |opts| ==>
              r[k].1 == if opts[k].1.Labelled? then Bare(opts[k].1.caption) else opts[k].1
  {
    if |opts| == 0 then []
    else
      var o := opts[0].1;
      [(opts[0].0, if o.Labelled? then Bare(o.caption) else o)] + DescribeOptions(opts[1..])
  }

  /** A field is described when it has a name and is not `title`. */
  predicate Described(key: string, s: FieldSetting)
  {
    s.name.Some? && key != "title"
  }

  function Describe(key: string, s: FieldSetting): Description
    requires Described(key, s)
  {
    var t := TypeOf(s);
    var options := if (t == "key_select" || t == "multi_select") && s.defaults.Some?
                   then Some(DescribeOptions(s.defaults.value)) else None;
    Description(key, s.name.value, t, options)
  }

  function Descriptions(settings: seq<(string, FieldSetting)>): seq<Description>
    decreases |settings|
  {
    if |settings| == 0 then []
    else
      var (key, s) := settings[|settings| - 1];
      Descriptions(settings[..|settings| - 1]) + (if Described(key, s) then [Describe(key, s)] else [])
  }

  method BuildFieldsDescription(settings: seq<(string, FieldSetting)>) returns (description: seq<Description>)
    ensures description == Descriptions(settings)
  {
    description := [];
    for i := 0 to |settings|
      invariant description == Descriptions(settings[..i])
    {
      assert settings[..i + 1][..i] == settings[..i];
      var (key, s) := settings[i];
      if s.name.Some? && key != "title" {
        var fieldType := if s.fieldType.Some? then s.fieldType.value else "text";
        var options: Option<seq<(string, OptionValue)>> := None;
        if (fieldType == "key_select" || fieldType == "multi_select") && s.defaults.Some? {
          var shown := ShownOptions(s.defaults.value);
          options := Some(shown);
        }
        description := description + [Description(key, s.name.value, fieldType, options)];
      }
    }
    assert settings[..|settings|] == settings;
  }

  /** The option loop of one described field. */
  method ShownOptions(opts: seq<(string, OptionValue)>) returns (shown: seq<(string, OptionValue)>)
    ensures shown == DescribeOptions(opts)
  {
    shown := [];
    for j := 0 to |opts|
      invariant shown == DescribeOptions(opts[..j])
    {
      assert opts[..j + 1] == opts[..j] + [opts[j]];
      DescribeOptionsAppend(opts[..j], opts[j]);
      var (optionKey, optionValue) := opts[j];
      shown := shown + [(optionKey, if optionValue.Labelled? then Bare(optionValue.caption) else optionValue)];
    }
    assert opts[..|opts|] == opts;
  }

  lemma DescribeOptionsAppend(opts: seq<(string, OptionValue)>, o: (string, OptionValue))
    ensures DescribeOptions(opts + [o]) == DescribeOptions(opts) + DescribeOptions([o])
  {
    var l := DescribeOptions(opts + [o]);
    var r := DescribeOptions(opts) + DescribeOptions([o]);
    assert forall k :: 0 <= k < |opts| ==> (opts + [o])[k] == opts[k];
    assert |l| == |r|;
    forall k | 0 <= k < |l| ensures l[k] == r[k] {
      if k < |opts| {
        assert l[k] == r[k];
      }
    }
  }

  /**
   * The description lists exactly the named fields other than `title`, in
   * settings order, with the type defaulting to `text`, and options only
   * for key_select and multi_select fields whose default is an array.
   */
  lemma {:induction false} DescriptionsExact(settings: seq<(string, FieldSetting)>)
    ensures forall d :: d in Descriptions(settings) ==>
              exists k :: 0 <= k < |settings| && Described(settings[k].0, settings[k].1)
                          && d == Describe(settings[k].0, settings[k].1)
    ensures forall k :: 0 <= k < |settings| && Described(settings[k].0, settings[k].1) ==>
              Describe(settings[k].0, settings[k].1) in Descriptions(settings)
    decreases |settings|
  {
    if |settings| > 0 {
      var init := settings[..|settings| - 1];
      DescriptionsExact(init);
      assert forall k :: 0 <= k < |init| ==> init[k] == settings[k];
    }
  }

  /** Options are shown only for the two select types. */
  lemma DescribeOptionsOnlyForSelects(key: string, s: FieldSetting)
    requires Described(key, s)
    ensures Describe(key, s).options.Some?
            <==> (TypeOf(s) == "key_select" || TypeOf(s) == "multi_select") && s.defaults.Some?
    ensures Describe(key, s).fieldType == (if s.fieldType.Some? then s.fieldType.value else "text")
  {
  }

  // ---------------------------------------------------------------------
  // Contact disambiguation
  // ---------------------------------------------------------------------

  /**
   * A contact record as the search returns it: the `value` column of
   * `contact_phone.values` and `contact_email.values` when set, and the
   * labels of `location_grid_meta` when set.
   */
  datatype Contact = Contact(id: string, name: string, title: string,
                             phones: Option<seq<string>>, emails: Option<seq<string>>,
                             locationLabels: Option<seq<Option<string>>>)

  /** `{id, name, details}` offered for choosing. */
  datatype ContactChoice = ContactChoice(id: string, name: string, details: string)

  /** The phones joined by ", ", else the e-mails, else the first location's label; then parenthesised when non-empty. */
  function ContactDetails(c: Contact): (r: string)
  {
    var phones := if c.phones.Some? && |c.phones.value| > 0 then Implode(", ", c.phones.value) else "";
    var withEmails := if IsEmptyStr(phones) && c.emails.Some? && |c.emails.value| > 0
                      then phones + Implode(", ", c.emails.value) else phones;
    var withLocation := if IsEmptyStr(withEmails) && c.locationLabels.Some?
                        then (if |c.locationLabels.value| > 0 then c.locationLabels.value[0].GetOr("") else "")
                        else withEmails;
    if IsEmptyStr(withLocation) then withLocation else "(" + withLocation + ")"
  }

  /** The details are parenthesised exactly when there is something to show. */
  lemma ContactDetailsWrapped(c: Contact)
    ensures var d := ContactDetails(c);
            IsEmptyStr(d) || (|d| >= 2 && d[0] == '(' && d[|d| - 1] == ')')
  {
  }

  /** With phones that give non-empty details, the e-mails and locations are not consulted. */
  lemma ContactDetailsPhonesFirst(c: Contact)
    requires c.phones.Some? && |c.phones.value| > 0 && !IsEmptyStr(Implode(", ", c.phones.value))
    ensures ContactDetails(c) == "(" + Implode(", ", c.phones.value) + ")"
  {
  }

  /** Without phones, the e-mails are used; without either, the first location's label. */
  lemma ContactDetailsFallbacks(c: Contact)
    requires c.phones.None? || |c.phones.value| == 0
    ensures c.emails.Some? && |c.emails.value| > 0 && !IsEmptyStr(Implode(", ", c.emails.value))
            ==> ContactDetails(c) == "(" + Implode(", ", c.emails.value) + ")"
    ensures (c.emails.None? || |c.emails.value| == 0) && c.locationLabels.Some? && |c.locationLabels.value| > 0
            && c.locationLabels.value[0].Some? && !IsEmptyStr(c.locationLabels.value[0].value)
            ==> ContactDetails(c) == "(" + c.locationLabels.value[0].value + ")"
  {
  }

  function Choices(contacts: seq<Contact>): (r: seq<ContactChoice>)
    ensures |r| == |contacts|
    ensures forall k :: 0 <= k < |contacts| ==>
              r[k] == ContactChoice(contacts[k].id, contacts[k].name, ContactDetails(contacts[k]))
  {
    seq(|contacts|, k requires 0 <= k < |contacts| =>
      ContactChoice(contacts[k].id, contacts[k].name, ContactDetails(contacts[k])))
  }

  method BuildContactsList(contacts: seq<Contact>) returns (list: seq<ContactChoice>)
    ensures list == Choices(contacts)
  {
    list := [];
    for i := 0 to |contacts|
      invariant |list| == i
      invariant forall k :: 0 <= k < i ==> list[k] == Choices(contacts)[k]
    {
      var c := contacts[i];
      var details := "";
      if c.phones.Some? && |c.phones.value| > 0 {
        details := details + Implode(", ", c.phones.value);
      }
      if IsEmptyStr(details) && c.emails.Some? && |c.emails.value| > 0 {
        details := details + Implode(", ", c.emails.value);
      }
      if IsEmptyStr(details) && c.locationLabels.Some? {
        details := if |c.locationLabels.value| > 0 then c.locationLabels.value[0].GetOr("") else "";
      }
      if !IsEmptyStr(details) {
        details := "(" + details + ")";
      }
      assert details == ContactDetails(c);
      list := list + [ContactChoice(c.id, c.name, details)];
    }
  }

  /** How the named contact is resolved. */
  datatype Resolution =
    | NoContactName                                      // `success: false`, "No contact name detected"
    | SelectionFailed                                    // the chosen contact could not be read
    | SearchFailed                                       // the search itself failed (HTTP 500)
    | NotFound(message: string)                          // "Contact '…' not found"
    | Ambiguous(message: string, contacts: seq<ContactChoice>, originalCommand: string)
    | Resolved(contact: Contact)

  /**
   * `selected` reads the record of a chosen contact id; `search` lists the
   * contacts with a given name; both are the post store.
   */
  function ResolveContact(command: string, contactName: string, contactSelection: Option<string>,
                          selected: string -> Result<Contact>, search: string -> Result<seq<Contact>>)
    : (r: Resolution)
    ensures IsEmptyStr(Trim(contactName)) ==> r == NoContactName
    ensures !IsEmptyStr(Trim(contactName)) && contactSelection.Some? && !IsEmptyStr(contactSelection.value)
            ==> r == (match selected(contactSelection.value)
                      case Failure(_) => SelectionFailed
                      case Success(c) => Resolved(c))
    ensures r.SearchFailed? || r.NotFound? || r.Ambiguous?
            ==> !IsEmptyStr(Trim(contactName)) && (contactSelection.None? || IsEmptyStr(contactSelection.value))
    ensures !IsEmptyStr(Trim(contactName)) && (contactSelection.None? || IsEmptyStr(contactSelection.value))
            ==> && (r.SearchFailed? <==> search(Trim(contactName)).Failure?)
                && (r.NotFound? <==> search(Trim(contactName)) == Success([]))
                && (r.Ambiguous? <==> search(Trim(contactName)).Success? && |search(Trim(contactName)).value| > 1)
                && (r.Resolved? <==> search(Trim(contactName)).Success? && |search(Trim(contactName)).value| == 1)
                && (r.Resolved? ==> search(Trim(contactName)).value == [r.contact])
    ensures r.NotFound? ==> r.message == "Contact '" + Trim(contactName) + "' not found"
    ensures r.Ambiguous? ==> r.message == "Multiple contacts found with the name '" + Trim(contactName) + "'. Please select one:"
                             && r.contacts == Choices(search(Trim(contactName)).value)
                             && r.originalCommand == command
  {
    var name := Trim(contactName);
    if IsEmptyStr(name) then NoContactName
    else if contactSelection.Some? && !IsEmptyStr(contactSelection.value) then
      match selected(contactSelection.value)
      case Failure(_) => SelectionFailed
      case Success(c) => Resolved(c)
    else
      match search(name)
      case Failure(_) => SearchFailed
      case Success(hits) =>
        if |hits| == 0 then NotFound("Contact '" + name + "' not found")
        else if |hits| > 1 then
          Ambiguous("Multiple contacts found with the name '" + name + "'. Please select one:", Choices(hits), command)
        else Resolved(hits[0])
  }

  // ---------------------------------------------------------------------
  // Coercion of the model's field values (the `update_fields` switch)
  // ---------------------------------------------------------------------

  /** A field value as the model returns it: a string, a boolean, or a list of strings. */
  datatype Json = JStr(s: string) | JBool(b: bool) | JList(items: seq<string>)

  /** What a field contributes to `$update_fields`. */
  datatype UpdateValue =
    | Values(values: seq<string>)     // `['values' => [['value' => v], …]]`
    | Raw(value: Json)                // the value itself, or an option key
    | Flag(b: bool)                   // `(bool) $v`
    | Zero                            // a non-numeric number

  /** PHP's string conversion of a scalar. */
  function ScalarText(v: Json): string
    requires !v.JList?
  {
    if v.JStr? then v.s else if v.b then "1" else ""
  }

  /** `(bool) $v`. */
  function Truthy(v: Json): bool
  {
    match v
    case JStr(s) => !IsEmptyStr(s)
    case JBool(b) => b
    case JList(items) => |items| > 0
  }

  /** `is_array( $option_value ) ? ( $option_value['label'] ?? '' ) : $option_value`. */
  function LabelOf(o: OptionValue): string
  {
    match o
    case Labelled(l) => l
    case Unlabelled => ""
    case Bare(t) => t
  }

  /** `strcasecmp( $a, $b ) === 0`. */
  predicate SameIgnoringCase(a: string, b: string)
  {
    Lower(a) == Lower(b)
  }

  /** `stripos( $hay, $needle ) !== false` (an empty needle is found at 0). */
  predicate ContainsIgnoringCase(hay: string, needle: string)
  {
    Contains(Lower(hay), Lower(needle))
  }

  /** The key of the first option whose label satisfies p. */
  function FirstOption(opts: seq<(string, OptionValue)>, p: string -> bool): (r: Option<string>)
    ensures r.None? <==> forall k :: 0 <= k < |opts| ==> !p(LabelOf(opts[k].1))
    ensures r.Some? ==> exists k :: 0 <= k < |opts| && opts[k].0 == r.value && p(LabelOf(opts[k].1))
                                    && forall j :: 0 <= j < k ==> !p(LabelOf(opts[j].1))
    decreases |opts|
  {
    if |opts| == 0 then None
    else if p(LabelOf(opts[0].1)) then Some(opts[0].0)
    else
      var rest := opts[1..];
      assert forall k :: 0 <= k < |rest| ==> rest[k] == opts[k + 1];
      var r := FirstOption(rest, p);
      if r.Some? then
        var k :| 0 <= k < |rest| && rest[k].0 == r.value && p(LabelOf(rest[k].1))
                 && forall j :: 0 <= j < k ==> !p(LabelOf(rest[j].1));
        assert opts[k + 1] == rest[k];
        r
      else r
  }

  /** The key of the last option whose label satisfies p. */
  function LastOption(opts: seq<(string, OptionValue)>, p: string -> bool): (r: Option<string>)
    ensures r.None? <==> forall k :: 0 <= k < |opts| ==> !p(LabelOf(opts[k].1))
    ensures r.Some? ==> exists k :: 0 <= k < |opts| && opts[k].0 == r.value && p(LabelOf(opts[k].1))
                                    && forall j :: k < j < |opts| ==> !p(LabelOf(opts[j].1))
    decreases |opts|
  {
    if |opts| == 0 then None
    else
      var n := |opts| - 1;
      if p(LabelOf(opts[n].1)) then Some(opts[n].0)
      else
        var init := opts[..n];
        assert forall k :: 0 <= k < n ==> init[k] == opts[k];
        var r := LastOption(init, p);
        assert r.Some? ==> exists k :: 0 <= k < n && opts[k].0 == r.value && p(LabelOf(opts[k].1))
                                       && forall j :: k < j < n ==> !p(LabelOf(opts[j].1));
        r
  }

  /**
   * The label search for a value that is not a valid key. For a list, the
   * inner `break` leaves only the loop over the values, so the scan over
   * the options goes on and the LAST matching option wins; for a scalar,
   * the FIRST. An exact (case-insensitive) match takes priority over a
   * partial one.
   */
  function LabelMatch(opts: seq<(string, OptionValue)>, v: Json): Option<string>
  {
    if v.JList? then
      var exact := LastOption(opts, ListPred(v.items, true));
      if exact.Some? then exact
      else LastOption(opts, ListPred(v.items, false))
    else
      var t := ScalarText(v);
      var exact := FirstOption(opts, ScalarPred(t, true));
      if exact.Some? then exact
      else FirstOption(opts, ScalarPred(t, false))
  }

  /** Does some value of a list match the label, exactly or partially? */
  predicate ListTest(items: seq<string>, exact: bool, l: string)
  {
    exists x :: x in items && if exact then SameIgnoringCase(l, x) else ContainsIgnoringCase(l, x)
  }

  function ListPred(items: seq<string>, exact: bool): string -> bool
  {
    l => ListTest(items, exact, l)
  }

  function ScalarPred(t: string, exact: bool): string -> bool
  {
    l => ScalarTest(t, exact, l)
  }

  /** Does a scalar match the label: exactly, or either one contains the other? */
  predicate ScalarTest(t: string, exact: bool, l: string)
  {
    if exact then SameIgnoringCase(l, t) else ContainsIgnoringCase(l, t) || ContainsIgnoringCase(t, l)
  }

  /** `in_array( $v, array_keys( $default ) )`, with strict comparison. */
  predicate IsValidKey(opts: seq<(string, OptionValue)>, v: Json)
  {
    v.JStr? && v.s in Keys(opts)
  }

  /** key_select: a valid key as is, else a label match, else nothing; without options, the raw value. */
  function KeySelect(s: FieldSetting, v: Json): (r: Option<UpdateValue>)
    ensures s.defaults.None? ==> r == Some(Raw(v))
    ensures s.defaults.Some? && IsValidKey(s.defaults.value, v) ==> r == Some(Raw(v))
    ensures s.defaults.Some? && r.Some? ==> r.value.Raw? && r.value.value.JStr? && r.value.value.s in Keys(s.defaults.value)
  {
    if s.defaults.None? then Some(Raw(v))
    else if IsValidKey(s.defaults.value, v) then Some(Raw(v))
    else
      match LabelMatch(s.defaults.value, v)
      case None => None
      case Some(k) =>
        var i :| 0 <= i < |s.defaults.value| && s.defaults.value[i].0 == k;
        assert Keys(s.defaults.value)[i] == k;
        Some(Raw(JStr(k)))
  }

  /** multi_select and communication_channel: a list keeps its order, a string becomes a one-element list, anything else is dropped. */
  function ValuesOf(v: Json): (r: Option<UpdateValue>)
    ensures v.JList? ==> r == Some(Values(v.items))
    ensures v.JStr? ==> r == Some(Values([v.s]))
    ensures v.JBool? ==> r.None?
  {
    match v
    case JList(items) => Some(Values(items))
    case JStr(s) => Some(Values([s]))
    case JBool(_) => None
  }

  /**
   * One field's contribution, by type. `isNumeric` is PHP's `is_numeric`
   * on a string; `toDate` is `strtotime` followed by `gmdate( 'Y-m-d' )`,
   * None where strtotime fails.
   */
  function Coerce(s: FieldSetting, v: Json, isNumeric: string -> bool, toDate: string -> Option<string>)
    : (r: Option<UpdateValue>)
    ensures TypeOf(s) == "text" ==> r == Some(Raw(v))
    ensures TypeOf(s) == "boolean" ==> r == Some(Flag(Truthy(v)))
    ensures TypeOf(s) == "number" ==> r == Some(if v.JStr? && isNumeric(v.s) then Raw(v) else Zero)
    ensures TypeOf(s) !in ["multi_select", "communication_channel", "key_select", "text", "date", "boolean", "number"]
            ==> r.None?
  {
    match TypeOf(s)
    case "multi_select" => ValuesOf(v)
    case "communication_channel" => ValuesOf(v)
    case "key_select" => KeySelect(s, v)
    case "text" => Some(Raw(v))
    case "date" =>
      if v.JStr? && !IsEmptyStr(v.s) && toDate(v.s).Some? then Some(Raw(JStr(toDate(v.s).value))) else None
    case "boolean" => Some(Flag(Truthy(v)))
    case "number" => if v.JStr? && isNumeric(v.s) then Some(Raw(v)) else Some(Zero)
    case _ => None
  }

  /** What one update contributes: nothing for an unknown key, else its coerced value. */
  function Coerced(u: (string, Json), settings: seq<(string, FieldSetting)>,
                   isNumeric: string -> bool, toDate: string -> Option<string>): Option<UpdateValue>
  {
    match Get(settings, u.0)
    case None => None
    case Some(s) => Coerce(s, u.1, isNumeric, toDate)
  }

  /** `$update_fields` after the loop over the model's field updates. */
  function UpdateFields(updates: seq<(string, Json)>, settings: seq<(string, FieldSetting)>,
                        isNumeric: string -> bool, toDate: string -> Option<string>)
    : seq<(string, UpdateValue)>
    decreases |updates|
  {
    if |updates| == 0 then [("overall_status", Raw(JStr("active")))]
    else
      var acc := UpdateFields(updates[..|updates| - 1], settings, isNumeric, toDate);
      var u := updates[|updates| - 1];
      match Coerced(u, settings, isNumeric, toDate)
      case None => acc
      case Some(c) => Put(acc, u.0, c)
  }

  /** The inner loop over a list value: does some value match the label? */
  method AnyValueMatches(caption: string, items: seq<string>, exact: bool) returns (b: bool)
    ensures b <==> ListTest(items, exact, caption)
  {
    b := false;
    for i := 0 to |items|
      invariant forall j :: 0 <= j < i ==>
                  !(if exact then SameIgnoringCase(caption, items[j]) else ContainsIgnoringCase(caption, items[j]))
    {
      if (exact && Lower(caption) == Lower(items[i])) || (!exact && Contains(Lower(caption), Lower(items[i]))) {
        assert items[i] in items;
        b := true;
        return;
      }
    }
  }

  /** The first option whose label passes the test is the one FirstOption picks. */
  lemma FirstOptionAt(opts: seq<(string, OptionValue)>, p: string -> bool, i: nat)
    requires i < |opts| && p(LabelOf(opts[i].1))
    requires forall k :: 0 <= k < i ==> !p(LabelOf(opts[k].1))
    ensures FirstOption(opts, p) == Some(opts[i].0)
  {
    var r := FirstOption(opts, p);
    var k :| 0 <= k < |opts| && opts[k].0 == r.value && p(LabelOf(opts[k].1))
              && forall j :: 0 <= j < k ==> !p(LabelOf(opts[j].1));
    assert k == i;
  }

  /** One pass over the options for a scalar value: the first option whose label passes the test. */
  method FirstLabel(opts: seq<(string, OptionValue)>, t: string, exact: bool) returns (r: Option<string>)
    ensures r == FirstOption(opts, ScalarPred(t, exact))
  {
    ghost var p := ScalarPred(t, exact);
    for i := 0 to |opts|
      invariant forall k :: 0 <= k < i ==> !p(LabelOf(opts[k].1))
    {
      var (optionKey, optionValue) := opts[i];
      var caption := LabelOf(optionValue);
      var hit := ScalarTest(t, exact, caption);
      if hit {
        r := Some(optionKey);
        FirstOptionAt(opts, p, i);
        return;
      }
    }
    r := None;
  }

  /** One pass over the options for a list value: the last option some value matches. */
  method LastLabel(opts: seq<(string, OptionValue)>, items: seq<string>, exact: bool) returns (r: Option<string>)
    ensures r == LastOption(opts, ListPred(items, exact))
  {
    ghost var p := ListPred(items, exact);
    r := None;
    for i := 0 to |opts|
      invariant r == LastOption(opts[..i], p)
    {
      var (optionKey, optionValue) := opts[i];
      var caption := LabelOf(optionValue);
      assert opts[..i + 1][..i] == opts[..i];
      var hit := AnyValueMatches(caption, items, exact);
      if hit {
        r := Some(optionKey);
      }
    }
    assert opts[..|opts|] == opts;
  }

  /** The key_select branch for a value that is not a valid key: exact labels first, then partial ones. */
  method MatchLabel(opts: seq<(string, OptionValue)>, v: Json) returns (r: Option<string>)
    ensures r == LabelMatch(opts, v)
  {
    if v.JList? {
      r := LastLabel(opts, v.items, true);
      if r.None? {
        r := LastLabel(opts, v.items, false);
      }
    } else {
      var t := if v.JStr? then v.s else if v.b then "1" else "";
      r := FirstLabel(opts, t, true);
      if r.None? {
        r := FirstLabel(opts, t, false);
      }
    }
  }

  /** The `switch ( $field_type )` for one update. */
  method CoerceField(s: FieldSetting, v: Json, isNumeric: string -> bool, toDate: string -> Option<string>)
    returns (r: Option<UpdateValue>)
    ensures r == Coerce(s, v, isNumeric, toDate)
  {
    var fieldType := if s.fieldType.Some? then s.fieldType.value else "text";
    r := None;
    if fieldType == "multi_select" || fieldType == "communication_channel" {
      if v.JList? {
        r := Some(Values(v.items));
      } else if v.JStr? {
        r := Some(Values([v.s]));
      }
    } else if fieldType == "key_select" {
      if s.defaults.Some? {
        if v.JStr? && v.s in Keys(s.defaults.value) {
          r := Some(Raw(v));
        } else {
          var found := MatchLabel(s.defaults.value, v);
          if found.Some? {
            r := Some(Raw(JStr(found.value)));
          }
        }
      } else {
        r := Some(Raw(v));
      }
    } else if fieldType == "text" {
      r := Some(Raw(v));
    } else if fieldType == "date" {
      if v.JStr? && !IsEmptyStr(v.s) {
        var date := toDate(v.s);
        if date.Some? {
          r := Some(Raw(JStr(date.value)));
        }
      }
    } else if fieldType == "boolean" {
      r := Some(Flag(Truthy(v)));
    } else if fieldType == "number" {
      r := Some(if v.JStr? && isNumeric(v.s) then Raw(v) else Zero);
    }
  }

  /** The loop that builds `$update_fields`. */
  method BuildUpdateFields(updates: seq<(string, Json)>, settings: seq<(string, FieldSetting)>,
                           isNumeric: string -> bool, toDate: string -> Option<string>)
    returns (updateFields: seq<(string, UpdateValue)>)
    ensures updateFields == UpdateFields(updates, settings, isNumeric, toDate)
  {
    updateFields := [("overall_status", Raw(JStr("active")))];
    for i := 0 to |updates|
      invariant updateFields == UpdateFields(updates[..i], settings, isNumeric, toDate)
    {
      assert updates[..i + 1][..i] == updates[..i];
      var (fieldKey, fieldValue) := updates[i];
      var s := Get(settings, fieldKey);
      if s.Some? {
        var c := CoerceField(s.value, fieldValue, isNumeric, toDate);
        if c.Some? {
          updateFields := Put(updateFields, fieldKey, c.value);
        }
      }
    }
    assert updates[..|updates|] == updates;
  }

  /** `overall_status` always stays the first key, and no key appears twice. */
  lemma {:induction false} UpdateFieldsShape(updates: seq<(string, Json)>, settings: seq<(string, FieldSetting)>,
                                             isNumeric: string -> bool, toDate: string -> Option<string>)
    ensures var r := UpdateFields(updates, settings, isNumeric, toDate);
            |r| > 0 && r[0].0 == "overall_status" && DistinctKeys(r)
    decreases |updates|
  {
    if |updates| > 0 {
      var init := updates[..|updates| - 1];
      UpdateFieldsShape(init, settings, isNumeric, toDate);
      var acc := UpdateFields(init, settings, isNumeric, toDate);
      var u := updates[|updates| - 1];
      var c := Coerced(u, settings, isNumeric, toDate);
      if c.Some? {
        PutDistinct(acc, u.0, c.value);
        assert Keys(acc)[0] == "overall_status";
        assert Keys(Put(acc, u.0, c.value))[0] == "overall_status";
      }
    }
  }

  lemma UpdateFieldsStep(updates: seq<(string, Json)>, settings: seq<(string, FieldSetting)>,
                         isNumeric: string -> bool, toDate: string -> Option<string>)
    requires |updates| > 0
    ensures var n := |updates| - 1;
            var acc := UpdateFields(updates[..n], settings, isNumeric, toDate);
            var c := Coerced(updates[n], settings, isNumeric, toDate);
            UpdateFields(updates, settings, isNumeric, toDate) == if c.Some? then Put(acc, updates[n].0, c.value) else acc
  {
  }

  /** Does update i set key k? */
  predicate Sets(updates: seq<(string, Json)>, i: int, k: string, settings: seq<(string, FieldSetting)>,
                 isNumeric: string -> bool, toDate: string -> Option<string>)
    requires 0 <= i < |updates|
  {
    updates[i].0 == k && Coerced(updates[i], settings, isNumeric, toDate).Some?
  }

  /** A key no update sets is absent, except `overall_status`, which stays "active". */
  lemma {:induction false} UpdateFieldsUnset(updates: seq<(string, Json)>, settings: seq<(string, FieldSetting)>,
                                             isNumeric: string -> bool, toDate: string -> Option<string>, k: string)
    requires forall i :: 0 <= i < |updates| ==> !Sets(updates, i, k, settings, isNumeric, toDate)
    ensures Get(UpdateFields(updates, settings, isNumeric, toDate), k)
            == if k == "overall_status" then Some(Raw(JStr("active"))) else None
    decreases |updates|
  {
    if |updates| > 0 {
      var n := |updates| - 1;
      var init := updates[..n];
      assert forall i :: 0 <= i < n ==> init[i] == updates[i];
      assert forall i :: 0 <= i < n ==> !Sets(init, i, k, settings, isNumeric, toDate) by {
        forall i | 0 <= i < n ensures !Sets(init, i, k, settings, isNumeric, toDate) {
          assert !Sets(updates, i, k, settings, isNumeric, toDate);
        }
      }
      UpdateFieldsUnset(init, settings, isNumeric, toDate, k);
      var c := Coerced(updates[n], settings, isNumeric, toDate);
      assert !Sets(updates, n, k, settings, isNumeric, toDate);
      if c.Some? {
        PutGet(UpdateFields(init, settings, isNumeric, toDate), updates[n].0, c.value, k);
      }
    }
  }

  /** The last update that sets a key decides its value. */
  lemma {:induction false} UpdateFieldsLastWins(updates: seq<(string, Json)>, settings: seq<(string, FieldSetting)>,
                                                isNumeric: string -> bool, toDate: string -> Option<string>,
                                                k: string, i: nat)
    requires i < |updates| && Sets(updates, i, k, settings, isNumeric, toDate)
    requires forall j :: i < j < |updates| ==> !Sets(updates, j, k, settings, isNumeric, toDate)
    ensures Get(UpdateFields(updates, settings, isNumeric, toDate), k) == Coerced(updates[i], settings, isNumeric, toDate)
    decreases |updates|
  {
    var n := |updates| - 1;
    var init := updates[..n];
    var c := Coerced(updates[n], settings, isNumeric, toDate);
    UpdateFieldsStep(updates, settings, isNumeric, toDate);
    if i == n {
      PutGet(UpdateFields(init, settings, isNumeric, toDate), k, c.value, k);
    } else {
      assert forall j :: 0 <= j < n ==> init[j] == updates[j];
      assert Sets(init, i, k, settings, isNumeric, toDate);
      assert forall j :: i < j < n ==> !Sets(init, j, k, settings, isNumeric, toDate) by {
        forall j | i < j < n ensures !Sets(init, j, k, settings, isNumeric, toDate) {
          assert !Sets(updates, j, k, settings, isNumeric, toDate);
        }
      }
      UpdateFieldsLastWins(init, settings, isNumeric, toDate, k, i);
      assert !Sets(updates, n, k, settings, isNumeric, toDate);
      if c.Some? {
        PutGet(UpdateFields(init, settings, isNumeric, toDate), updates[n].0, c.value, k);
      }
    }
  }

  // ---------------------------------------------------------------------
  // The result message
  // ---------------------------------------------------------------------

  /** How the message names a field: its name lower-cased when the settings give one, else its key. */
  function FieldName(k: string, settings: seq<(string, FieldSetting)>): string
  {
    var s := Get(settings, k);
    if s.Some? && s.value.name.Some? then Lower(s.value.name.value) else k
  }

  /** The name of every key other than `overall_status`, in key order. */
  function UpdatedNames(keys: seq<string>, settings: seq<(string, FieldSetting)>): seq<string>
    decreases |keys|
  {
    if |keys| == 0 then []
    else
      var rest := UpdatedNames(keys[1..], settings);
      if keys[0] == "overall_status" then rest else [FieldName(keys[0], settings)] + rest
  }

  /**
   * With `overall_status` first and no key twice (the shape of
   * `$update_fields`), the names are those of the remaining keys, one for
   * one and in order.
   */
  lemma {:induction false} UpdatedNamesCount(keys: seq<string>, settings: seq<(string, FieldSetting)>)
    requires |keys| > 0 && keys[0] == "overall_status" && Distinct(keys)
    ensures var names := UpdatedNames(keys, settings);
            |names| == |keys| - 1 && forall j :: 0 <= j < |names| ==> names[j] == FieldName(keys[j + 1], settings)
  {
    var rest := keys[1..];
    forall j | 0 <= j < |rest| ensures rest[j] != "overall_status" {
      assert keys[0] != keys[j + 1];
    }
    NamesWithoutStatus(rest, settings);
  }

  /** Without the status key, every key is named, one for one and in order. */
  lemma {:induction false} NamesWithoutStatus(keys: seq<string>, settings: seq<(string, FieldSetting)>)
    requires forall j :: 0 <= j < |keys| ==> keys[j] != "overall_status"
    ensures var names := UpdatedNames(keys, settings);
            |names| == |keys| && forall j :: 0 <= j < |keys| ==> names[j] == FieldName(keys[j], settings)
    decreases |keys|
  {
    if |keys| > 0 {
      var rest := keys[1..];
      assert forall j :: 0 <= j < |rest| ==> rest[j] == keys[j + 1];
      NamesWithoutStatus(rest, settings);
      assert UpdatedNames(keys, settings) == [FieldName(keys[0], settings)] + UpdatedNames(rest, settings);
    }
  }

  /**
   * "Updated <title>", then " with updated " and the names of the updated
   * fields other than the status when there is one, then the meeting-notes
   * suffix for a "met" command with a message.
   */
  function ResultMessage(title: string, updateFields: seq<(string, UpdateValue)>,
                         settings: seq<(string, FieldSetting)>, action: string, message: string): (r: string)
    ensures var notes := if action == "met" && !IsEmptyStr(message) then " and added meeting notes" else "";
            && (|updateFields| > 1
                ==> r == "Updated " + title + " with updated " + Implode(", ", UpdatedNames(Keys(updateFields), settings)) + notes)
            && (|updateFields| <= 1 ==> r == "Updated " + title + notes)
  {
    var updated := if |updateFields| > 1
                   then " with updated " + Implode(", ", UpdatedNames(Keys(updateFields), settings)) else "";
    var notes := if action == "met" && !IsEmptyStr(message) then " and added meeting notes" else "";
    "Updated " + title + updated + notes
  }

  /**
   * The message after an update names each field `$update_fields` holds
   * beside the status, in its order; none at all when only the status is
   * set.
   */
  lemma ResultMessageNames(title: string, updates: seq<(string, Json)>, settings: seq<(string, FieldSetting)>,
                           isNumeric: string -> bool, toDate: string -> Option<string>, action: string, message: string)
    ensures var fields := UpdateFields(updates, settings, isNumeric, toDate);
            var names := UpdatedNames(Keys(fields), settings);
            var notes := if action == "met" && !IsEmptyStr(message) then " and added meeting notes" else "";
            && StartsWith(ResultMessage(title, fields, settings, action, message), "Updated " + title)
            && |names| == |fields| - 1
            && (forall j :: 0 <= j < |names| ==> names[j] == FieldName(fields[j + 1].0, settings))
            && (|names| > 0 ==> ResultMessage(title, fields, settings, action, message)
                                == "Updated " + title + " with updated " + Implode(", ", names) + notes)
            && (|names| == 0 ==> ResultMessage(title, fields, settings, action, message) == "Updated " + title + notes)
  {
    var fields := UpdateFields(updates, settings, isNumeric, toDate);
    UpdateFieldsShape(updates, settings, isNumeric, toDate);
    UpdatedNamesCount(Keys(fields), settings);
    var r := ResultMessage(title, fields, settings, action, message);
    var head := "Updated " + title;
    assert r == head + r[|head|..];
    assert r[..|head|] == head;
  }

  /** With nothing but the status updated, the message names no field. */
  lemma OnlyStatusMessage(title: string, settings: seq<(string, FieldSetting)>, action: string, message: string)
    ensures ResultMessage(title, [("overall_status", Raw(JStr("active")))], settings, action, message)
            == "Updated " + title + (if action == "met" && !IsEmptyStr(message) then " and added meeting notes" else "")
  {
  }

  /** The comment recorded for a meeting. */
  function MeetingComment(message: string): (r: string)
    ensures IsEmptyStr(message) ==> r == "Meeting recorded via chat command"
    ensures !IsEmptyStr(message) ==> r == "Meeting notes: " + message
  {
    if IsEmptyStr(message) then "Meeting recorded via chat command" else "Meeting notes: " + message
  }

  /** The note recorded when the action is "none": the message, else the command. */
  function NoteComment(command: string, message: string): (r: string)
    ensures !IsEmptyStr(message) ==> r == "Note: " + message
    ensures IsEmptyStr(message) ==> r == "Note: " + command
  {
    "Note: " + if !IsEmptyStr(message) then message else command
  }

  // ---------------------------------------------------------------------
  // The whole command
  // ---------------------------------------------------------------------

  /** The first model answer: `contact_name` and `action` are required, `message` optional. */
  datatype Interpretation = Interpretation(contactName: string, action: string, message: Option<string>)

  /** `$message`: the trimmed message, or "" when the answer has none. */
  function MessageOf(i: Interpretation): string
  {
    if i.message.Some? then Trim(i.message.value) else ""
  }

  /**
   * The collaborators of one command: the two model calls, the post
   * store, and the update and comment calls (`update` gives None on
   * success, else the error message). `interpret` is None where the call
   * fails or its answer does not parse into a contact name and an action;
   * `analyse` is None where the call fails or the response carries no
   * content (api_error, ai_error), and Some([]) where the content does not
   * decode to an array, so that the update still goes ahead with the
   * status alone.
   */
  datatype Ports = Ports(
    interpret: string -> Option<Interpretation>,
    analyse: string -> Option<seq<(string, Json)>>,
    selected: string -> Result<Contact>,
    search: string -> Result<seq<Contact>>,
    update: (string, seq<(string, UpdateValue)>) -> Option<string>,
    comment: (string, string) -> bool,
    isNumeric: string -> bool,
    toDate: string -> Option<string>)

  datatype ChatOutcome =
    | MissingCommand                                   // HTTP 400
    | ModelFailed                                      // api_error, parse_error or ai_error (HTTP 500)
    | Unresolved(resolution: Resolution)               // the contact could not be settled
    | Noted(success: bool, message: string, comment: string)
    | UpdateFailed(message: string)                    // HTTP 500
    | Updated(message: string, contactData: Option<(string, string)>, fields: seq<(string, UpdateValue)>,
              meetingComment: Option<string>)
      // `contact_data` (id, name) is absent from the answer when the meeting comment fails

  /**
   * What the update path promises once the contact is resolved and the
   * field analysis answered: a failed update is reported with the store's
   * message; otherwise the record is updated with the coerced fields, a
   * "met" command records its meeting comment, and the answer is the
   * result message with the contact's data, unless that comment fails.
   */
  predicate UpdatePathOutcome(r: ChatOutcome, contact: Contact, i: Interpretation,
                              settings: seq<(string, FieldSetting)>, ports: Ports, command: string)
    requires ports.analyse(command).Some?
  {
    var fields := UpdateFields(ports.analyse(command).value, settings, ports.isNumeric, ports.toDate);
    var failure := ports.update(contact.id, fields);
    var c := MeetingComment(MessageOf(i));
    var commentFailed := i.action == "met" && !ports.comment(contact.id, c);
    && (failure.Some? ==> r == UpdateFailed("Failed to update contact: " + failure.value))
    && (failure.None? ==>
          && r.Updated? && r.fields == fields
          && r.meetingComment == (if i.action == "met" then Some(c) else None)
          && (commentFailed ==> r.message == "Updated " + contact.title + " (but failed to add comment)"
                                && r.contactData.None?)
          && (!commentFailed ==> r.message == ResultMessage(contact.title, fields, settings, i.action, MessageOf(i))
                                 && r.contactData == Some((contact.id, contact.title))))
  }

  function ProcessChatCommand(command: string, contactSelection: Option<string>,
                              settings: seq<(string, FieldSetting)>, ports: Ports): (r: ChatOutcome)
    ensures IsEmptyStr(command) ==> r == MissingCommand
    ensures r.Noted? ==> !IsEmptyStr(command) && ports.interpret(command).Some?
                         && ports.interpret(command).value.action == "none"
                         && r.comment == NoteComment(command, MessageOf(ports.interpret(command).value))
                         && ResolveContact(command, ports.interpret(command).value.contactName, contactSelection,
                                           ports.selected, ports.search).Resolved?
    ensures !IsEmptyStr(command) && ports.interpret(command).Some? && ports.interpret(command).value.action == "none"
            ==> var i := ports.interpret(command).value;
                var res := ResolveContact(command, i.contactName, contactSelection, ports.selected, ports.search);
                res.Resolved?
                ==> var note := NoteComment(command, MessageOf(i));
                    r == Noted(ports.comment(res.contact.id, note),
                               (if ports.comment(res.contact.id, note) then "Added note to " else "Failed to add note to ")
                               + res.contact.title,
                               note)
    ensures r.Updated? ==> ports.interpret(command).Some? && ports.interpret(command).value.action != "none"
                           && ports.analyse(command).Some?
                           && r.fields == UpdateFields(ports.analyse(command).value, settings, ports.isNumeric, ports.toDate)
    ensures r.Updated? && r.meetingComment.Some? ==> ports.interpret(command).value.action == "met"
    ensures !IsEmptyStr(command) && ports.interpret(command).Some? && ports.interpret(command).value.action != "none"
            ==> var i := ports.interpret(command).value;
                var res := ResolveContact(command, i.contactName, contactSelection, ports.selected, ports.search);
                res.Resolved?
                ==> && (ports.analyse(command).None? ==> r == ModelFailed)
                    && (ports.analyse(command).Some? ==> UpdatePathOutcome(r, res.contact, i, settings, ports, command))
    ensures !IsEmptyStr(command) && ports.interpret(command).None? ==> r == ModelFailed
    ensures !IsEmptyStr(command) && ports.interpret(command).Some?
            ==> var i := ports.interpret(command).value;
                var res := ResolveContact(command, i.contactName, contactSelection, ports.selected, ports.search);
                !res.Resolved? ==> r == Unresolved(res)
  {
    if IsEmptyStr(command) then MissingCommand
    else match ports.interpret(command)
    case None => ModelFailed
    case Some(i) =>
      var message := MessageOf(i);
      match ResolveContact(command, i.contactName, contactSelection, ports.selected, ports.search)
      case Resolved(contact) =>
        if i.action == "none" then
          var note := NoteComment(command, message);
          if ports.comment(contact.id, note) then Noted(true, "Added note to " + contact.title, note)
          else Noted(false, "Failed to add note to " + contact.title, note)
        else
          (match ports.analyse(command)
          case None => ModelFailed
          case Some(updates) =>
            var fields := UpdateFields(updates, settings, ports.isNumeric, ports.toDate);
            match ports.update(contact.id, fields)
            case Some(e) => UpdateFailed("Failed to update contact: " + e)
            case None =>
              if i.action == "met" then
                var c := MeetingComment(message);
                if ports.comment(contact.id, c) then
                  Updated(ResultMessage(contact.title, fields, settings, i.action, message), Some((contact.id, contact.title)),
                          fields, Some(c))
                else
                  Updated("Updated " + contact.title + " (but failed to add comment)", None, fields, Some(c))
              else
                Updated(ResultMessage(contact.title, fields, settings, i.action, message), Some((contact.id, contact.title)),
                        fields, None))
      case other => Unresolved(other)
  }

  /**
   * A command naming no contact, or one the search cannot settle, changes
   * nothing: the answer is the resolution itself, with its message and choices.
   */
  lemma UnresolvedChangesNothing(command: string, contactSelection: Option<string>,
                                 settings: seq<(string, FieldSetting)>, ports: Ports)
    requires !IsEmptyStr(command) && ports.interpret(command).Some?
    requires var i := ports.interpret(command).value;
             !ResolveContact(command, i.contactName, contactSelection, ports.selected, ports.search).Resolved?
    ensures var i := ports.interpret(command).value;
            var res := ResolveContact(command, i.contactName, contactSelection, ports.selected, ports.search);
            ProcessChatCommand(command, contactSelection, settings, ports) == Unresolved(res)
  {
  }
}
