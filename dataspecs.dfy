/**
 * The filter-generation model specification: the prompt text the plugin
 * assembles at load time from five text files (brief, structure,
 * instructions, examples, considerations) and stores as an option.
 * Reading a file is an input: None where `fopen` fails, else the lines
 * `fgets` returns, each with its line terminator.
 */
module DataSpecs {
  import opened Wrappers
  import opened PhpStr

  // ---------------------------------------------------------------------
  // get_data
  // ---------------------------------------------------------------------

  /** A line is kept when it is more than blank (PHP-empty after trimming). */
  predicate Kept(line: string)
  {
    !IsEmptyStr(Trim(line))
  }

  /** A kept line is stored trimmed and backslash-escaped, or as read. */
  function Stored(line: string, escape: bool): string
  {
    if escape then AddSlashes(Trim(line)) else line
  }

  /** The stored lines, in file order. */
  function DataOf(lines: seq<string>, escape: bool): seq<string>
    decreases |lines|
  {
    if |lines| == 0 then []
    else
      var last := lines[|lines| - 1];
      DataOf(lines[..|lines| - 1], escape) + (if Kept(last) then [Stored(last, escape)] else [])
  }

  function Data(file: Option<seq<string>>, escape: bool): seq<string>
  {
    if file.None? then [] else DataOf(file.value, escape)
  }

  lemma DataOfStep(lines: seq<string>, i: nat, escape: bool)
    requires i < |lines|
    ensures DataOf(lines[..i + 1], escape)
            == DataOf(lines[..i], escape) + (if Kept(lines[i]) then [Stored(lines[i], escape)] else [])
  {
    assert lines[..i + 1][..i] == lines[..i];
  }

  method GetData(file: Option<seq<string>>, escape: bool) returns (contents: seq<string>)
    ensures contents == Data(file, escape)
  {
    contents := [];
    if file.Some? {
      var lines := file.value;
      var i := 0;
      while i < |lines|
        invariant 0 <= i <= |lines|
        invariant contents == DataOf(lines[..i], escape)
      {
        var line := lines[i];
        DataOfStep(lines, i, escape);
        if line != "" && line != "0" && !IsEmptyStr(Trim(line)) {
          contents := contents + [if escape then AddSlashes(Trim(line)) else line];
        }
        i := i + 1;
      }
      assert lines[..|lines|] == lines;
    }
  }

  /** Every stored line comes from a kept line of the file. */
  lemma {:induction false} DataSound(lines: seq<string>, escape: bool)
    ensures forall x :: x in DataOf(lines, escape) ==> exists l :: l in lines && Kept(l) && x == Stored(l, escape)
    decreases |lines|
  {
    if |lines| > 0 {
      var init := lines[..|lines| - 1];
      DataSound(init, escape);
      assert forall l :: l in init ==> l in lines;
    }
  }

  /** Every kept line of the file is stored. */
  lemma {:induction false} DataComplete(lines: seq<string>, escape: bool)
    ensures forall l :: l in lines && Kept(l) ==> Stored(l, escape) in DataOf(lines, escape)
    decreases |lines|
  {
    if |lines| > 0 {
      var init := lines[..|lines| - 1];
      DataComplete(init, escape);
      assert forall l :: l in lines ==> l in init || l == lines[|lines| - 1];
    }
  }

  /** The number of kept lines. */
  function CountKept(lines: seq<string>): nat
    decreases |lines|
  {
    if |lines| == 0 then 0 else CountKept(lines[..|lines| - 1]) + (if Kept(lines[|lines| - 1]) then 1 else 0)
  }

  /** One stored line per kept line. */
  lemma {:induction false} DataCount(lines: seq<string>, escape: bool)
    ensures |DataOf(lines, escape)| == CountKept(lines)
    decreases |lines|
  {
    if |lines| > 0 {
      DataCount(lines[..|lines| - 1], escape);
    }
  }

  /** An escaped line unescapes to the trimmed, non-blank text of its file line. */
  lemma EscapedRoundTrip(lines: seq<string>)
    ensures forall x :: x in DataOf(lines, true) ==>
              exists l :: l in lines && Kept(l) && StripSlashes(x) == Trim(l) && !IsEmptyStr(StripSlashes(x))
  {
    DataSound(lines, true);
    forall x | x in DataOf(lines, true)
      ensures exists l :: l in lines && Kept(l) && StripSlashes(x) == Trim(l) && !IsEmptyStr(StripSlashes(x))
    {
      var l :| l in lines && Kept(l) && x == Stored(l, true);
      StripAddSlashes(Trim(l));
    }
  }

  // ---------------------------------------------------------------------
  // reshape_examples
  // ---------------------------------------------------------------------

  /** The default delimiter, the one every caller in the plugin relies on. */
  const Delimiter: Delim := "==//=="

  /** A delimiter `explode` accepts: PHP rejects the empty one. */
  type Delim = s: string | |s| > 0 witness "=="

  /**
   * One example `query <delimiter> output` as the model sees it; the
   * backslash-n pairs are the literal two characters of a single-quoted PHP
   * string. A missing output half is `trim( null )`, that is "".
   */
  function Entry(example: string, delim: Delim): string
  {
    var parts := Explode(delim, example);
    "User Query:\\n" + Trim(parts[0]) + "\\nOutput:\\n" + Trim(if |parts| > 1 then parts[1] else "")
  }

  function EntryWith(delim: Delim): string -> string
  {
    example => Entry(example, delim)
  }

  lemma EntryWithApplies(delim: Delim, example: string)
    ensures EntryWith(delim)(example) == Entry(example, delim)
  {
  }

  /** `array_map` over a list of strings, in order. */
  function MapStrings(xs: seq<string>, f: string -> string): seq<string>
    decreases |xs|
  {
    if |xs| == 0 then [] else MapStrings(xs[..|xs| - 1], f) + [f(xs[|xs| - 1])]
  }

  lemma {:induction false} MapStringsIndex(xs: seq<string>, f: string -> string)
    ensures |MapStrings(xs, f)| == |xs|
    ensures forall k :: 0 <= k < |xs| ==> MapStrings(xs, f)[k] == f(xs[k])
    decreases |xs|
  {
    if |xs| > 0 {
      var init := xs[..|xs| - 1];
      MapStringsIndex(init, f);
      assert forall k :: 0 <= k < |init| ==> init[k] == xs[k];
    }
  }

  lemma MapStringsSnoc(header: seq<string>, xs: seq<string>, i: nat, f: string -> string, y: string)
    requires i < |xs| && y == f(xs[i])
    ensures header + MapStrings(xs[..i], f) + [y] == header + MapStrings(xs[..i + 1], f)
  {
    assert xs[..i + 1][..i] == xs[..i];
  }

  function Header(addHeader: bool): seq<string>
  {
    if addHeader then ["Examples"] else []
  }

  function Reshaped(examples: seq<string>, addHeader: bool, delim: Delim): seq<string>
  {
    Header(addHeader) + MapStrings(examples, EntryWith(delim))
  }

  method ReshapeExamples(examples: seq<string>, addHeader: bool, delim: Delim) returns (reshaped: seq<string>)
    ensures reshaped == Reshaped(examples, addHeader, delim)
  {
    reshaped := [];
    if addHeader {
      reshaped := reshaped + ["Examples"];
    }
    ghost var entryOf := EntryWith(delim);
    assert reshaped == Header(addHeader) + MapStrings(examples[..0], entryOf);
    for i := 0 to |examples|
      invariant reshaped == Header(addHeader) + MapStrings(examples[..i], entryOf)
    {
      var explodedExample := Explode(delim, examples[i]);
      var query := Trim(explodedExample[0]);
      var output := Trim(if |explodedExample| > 1 then explodedExample[1] else "");
      var entry := "User Query:\\n" + query + "\\nOutput:\\n" + output;
      MapStringsSnoc(Header(addHeader), examples, i, entryOf, entry);
      reshaped := reshaped + [entry];
    }
    assert examples[..|examples|] == examples;
  }

  /**
   * One entry per example, after the header when there is one; example k
   * is entry k after the header.
   */
  lemma ReshapedEntries(examples: seq<string>, addHeader: bool, delim: Delim)
    ensures |Reshaped(examples, addHeader, delim)| == |examples| + (if addHeader then 1 else 0)
    ensures addHeader ==> Reshaped(examples, addHeader, delim)[0] == "Examples"
    ensures Reshaped(examples, addHeader, delim)[|Header(addHeader)|..] == MapStrings(examples, EntryWith(delim))
  {
    MapStringsIndex(examples, EntryWith(delim));
    assert (Header(addHeader) + MapStrings(examples, EntryWith(delim)))[|Header(addHeader)|..] == MapStrings(examples, EntryWith(delim));
  }

  lemma EntryAt(examples: seq<string>, delim: Delim, k: nat)
    requires k < |examples|
    ensures k < |MapStrings(examples, EntryWith(delim))|
    ensures MapStrings(examples, EntryWith(delim))[k] == Entry(examples[k], delim)
  {
    MapStringsIndex(examples, EntryWith(delim));
    EntryWithApplies(delim, examples[k]);
  }

  /**
   * An example with exactly one delimiter is the query half, the
   * delimiter and the output half; the entry shows both halves trimmed.
   */
  lemma EntrySplit(example: string, delim: Delim)
    requires |Explode(delim, example)| == 2
    ensures var parts := Explode(delim, example);
            && example == parts[0] + delim + parts[1]
            && Entry(example, delim) == "User Query:\\n" + Trim(parts[0]) + "\\nOutput:\\n" + Trim(parts[1])
  {
    var parts := Explode(delim, example);
    ImplodeExplode(delim, example);
    assert parts[1..] == [parts[1]];
  }

  /** Without the delimiter, the whole example is the query and the output is empty. */
  lemma EntryWithoutDelimiter(example: string, delim: Delim)
    requires !Contains(example, delim)
    ensures Entry(example, delim) == "User Query:\\n" + Trim(example) + "\\nOutput:\\n"
  {
    ExplodeAbsent(delim, example);
    assert Trim("") == "";
  }

  // ---------------------------------------------------------------------
  // build_filter_query_specs
  // ---------------------------------------------------------------------

  const Newline: string := "\\n"

  /** The five parts, each imploded by the literal backslash-n, joined by it, none after the last. */
  function Specs(brief: seq<string>, structure: seq<string>, instructions: seq<string>,
                 considerations: seq<string>, examples: seq<string>): string
  {
    Implode(Newline, brief) + Newline + Implode(Newline, structure) + Newline
    + Implode(Newline, instructions) + Newline + Implode(Newline, considerations) + Newline
    + Implode(Newline, examples)
  }

  /** With no part empty, the specification is every line of every part, in order, joined by the literal backslash-n. */
  lemma SpecsAllLines(brief: seq<string>, structure: seq<string>, instructions: seq<string>,
                      considerations: seq<string>, examples: seq<string>)
    requires |brief| > 0 && |structure| > 0 && |instructions| > 0 && |considerations| > 0 && |examples| > 0
    ensures Specs(brief, structure, instructions, considerations, examples)
            == Implode(Newline, brief + structure + instructions + considerations + examples)
  {
    ImplodeAppend(Newline, brief, structure);
    ImplodeAppend(Newline, brief + structure, instructions);
    ImplodeAppend(Newline, brief + structure + instructions, considerations);
    ImplodeAppend(Newline, brief + structure + instructions + considerations, examples);
  }

  /** The specification opens with the brief and closes with the examples. */
  lemma SpecsBounds(brief: seq<string>, structure: seq<string>, instructions: seq<string>,
                    considerations: seq<string>, examples: seq<string>)
    ensures var s := Specs(brief, structure, instructions, considerations, examples);
            StartsWith(s, Implode(Newline, brief) + Newline) && EndsWith(s, Newline + Implode(Newline, examples))
  {
    var s := Specs(brief, structure, instructions, considerations, examples);
    var head := Implode(Newline, brief) + Newline;
    var tail := Newline + Implode(Newline, examples);
    var middle := Implode(Newline, structure) + Newline + Implode(Newline, instructions) + Newline
                  + Implode(Newline, considerations);
    assert s == head + (middle + tail);
    ConcatBounds(head, middle + tail);
    assert s == (head + middle) + tail;
    ConcatBounds(head + middle, tail);
  }

  lemma ConcatBounds(a: string, b: string)
    ensures StartsWith(a + b, a) && EndsWith(a + b, b)
  {
    assert (a + b)[..|a|] == a;
    assert (a + b)[|a|..] == b;
  }

  /** The stored specification for the five files, with the examples reshaped under a header. */
  function FilterQuerySpecs(brief: Option<seq<string>>, structure: Option<seq<string>>,
                            instructions: Option<seq<string>>, considerations: Option<seq<string>>,
                            examples: Option<seq<string>>): string
  {
    Specs(Data(brief, true), Data(structure, true), Data(instructions, true), Data(considerations, true),
          Reshaped(Data(examples, true), true, Delimiter))
  }

  method BuildFilterQuerySpecs(briefFile: Option<seq<string>>, structureFile: Option<seq<string>>,
                               instructionsFile: Option<seq<string>>, considerationsFile: Option<seq<string>>,
                               examplesFile: Option<seq<string>>) returns (modelSpecs: string)
    ensures modelSpecs == FilterQuerySpecs(briefFile, structureFile, instructionsFile, considerationsFile, examplesFile)
  {
    var brief := GetData(briefFile, true);
    var structure := GetData(structureFile, true);
    var instructions := GetData(instructionsFile, true);
    var considerations := GetData(considerationsFile, true);
    var examples := GetData(examplesFile, true);
    var assignedToWithStatusExamples := ReshapeExamples(examples, true, Delimiter);
    modelSpecs := Implode(Newline, brief) + Newline;
    modelSpecs := modelSpecs + Implode(Newline, structure) + Newline;
    modelSpecs := modelSpecs + Implode(Newline, instructions) + Newline;
    modelSpecs := modelSpecs + Implode(Newline, considerations) + Newline;
    modelSpecs := modelSpecs + Implode(Newline, assignedToWithStatusExamples);
  }

  /** The examples always contribute their header, so the specification ends with at least it. */
  lemma SpecsEndInExamples(brief: Option<seq<string>>, structure: Option<seq<string>>,
                           instructions: Option<seq<string>>, considerations: Option<seq<string>>,
                           examples: Option<seq<string>>)
    ensures var ex := Reshaped(Data(examples, true), true, Delimiter);
            |ex| == |Data(examples, true)| + 1 && ex[0] == "Examples"
            && EndsWith(FilterQuerySpecs(brief, structure, instructions, considerations, examples),
                        Newline + Implode(Newline, ex))
  {
    ReshapedEntries(Data(examples, true), true, Delimiter);
    SpecsBounds(Data(brief, true), Data(structure, true), Data(instructions, true), Data(considerations, true),
                Reshaped(Data(examples, true), true, Delimiter));
  }
}
