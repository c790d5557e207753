/**
 * The PHP string built-ins the plugin relies on, stated over `seq<char>`
 * (PHP 8 semantics: `strtolower` is ASCII-only, an empty needle is found at
 * offset 0, `str_replace` scans left to right without overlaps).
 */
module PhpStr {

  /** The characters PHP's `trim()` strips by default: " \t\n\r\0\x0B". */
  predicate IsTrimChar(c: char)
  {
    c == ' ' || c == '\t' || c == '\n' || c == '\r' || c == '\0' || c == '\U{B}'
  }

  function TrimLeft(s: string): string
    decreases |s|
  {
    if |s| > 0 && IsTrimChar(s[0]) then TrimLeft(s[1..]) else s
  }

  function TrimRight(s: string): string
    decreases |s|
  {
    if |s| > 0 && IsTrimChar(s[|s| - 1]) then TrimRight(s[..|s| - 1]) else s
  }

  /** PHP `trim()`: strip the strippable characters at both ends. */
  function Trim(s: string): string
  {
    TrimRight(TrimLeft(s))
  }

  lemma {:induction false} TrimLeftProps(s: string)
    ensures var r := TrimLeft(s);
            |r| <= |s| && r == s[|s| - |r|..]
            && (forall k :: 0 <= k < |s| - |r| ==> IsTrimChar(s[k]))
            && (|r| > 0 ==> !IsTrimChar(r[0]))
    decreases |s|
  {
    if |s| > 0 && IsTrimChar(s[0]) {
      TrimLeftProps(s[1..]);
    }
  }

  lemma {:induction false} TrimRightProps(s: string)
    ensures var r := TrimRight(s);
            |r| <= |s| && r == s[..|r|]
            && (forall k :: |r| <= k < |s| ==> IsTrimChar(s[k]))
            && (|r| > 0 ==> !IsTrimChar(r[|r| - 1]))
    decreases |s|
  {
    if |s| > 0 && IsTrimChar(s[|s| - 1]) {
      TrimRightProps(s[..|s| - 1]);
    }
  }

  /**
   * The trimmed string is the infix s[i..j] left after removing the
   * strippable characters at both ends, and it neither starts nor ends
   * with one.
   */
  lemma TrimProps(s: string)
    ensures var r := Trim(s);
            && (exists i, j :: 0 <= i <= j <= |s| && r == s[i..j]
                               && (forall k :: 0 <= k < i ==> IsTrimChar(s[k]))
                               && (forall k :: j <= k < |s| ==> IsTrimChar(s[k])))
            && |r| <= |s|
            && (|r| > 0 ==> !IsTrimChar(r[0]) && !IsTrimChar(r[|r| - 1]))
  {
    var l := TrimLeft(s);
    var r := TrimRight(l);
    TrimLeftProps(s);
    TrimRightProps(l);
    SuffixTrim(s, l, r);
  }

  lemma SuffixTrim(s: string, l: string, r: string)
    requires |l| <= |s| && l == s[|s| - |l|..]
    requires |r| <= |l| && r == l[..|r|]
    requires forall k :: |r| <= k < |l| ==> IsTrimChar(l[k])
    ensures r == s[|s| - |l|..|s| - |l| + |r|]
    ensures forall k :: |s| - |l| + |r| <= k < |s| ==> IsTrimChar(s[k])
  {
    var i := |s| - |l|;
    forall k | i + |r| <= k < |s| ensures IsTrimChar(s[k]) {
      assert s[k] == l[k - i];
    }
  }

  /** PHP `empty()` on a string: true for "" and for "0". */
  predicate IsEmptyStr(s: string)
  {
    s == "" || s == "0"
  }

  /** PHP 8 `strtolower` on one character (ASCII letters only). */
  function LowerChar(c: char): (r: char)
    ensures 'A' <= c <= 'Z' ==> r as int == c as int + 32
    ensures !('A' <= c <= 'Z') ==> r == c
  {
    if 'A' <= c <= 'Z' then (c as int + 32) as char else c
  }

  function Lower(s: string): (r: string)
    ensures |r| == |s|
    ensures forall k :: 0 <= k < |s| ==> r[k] == LowerChar(s[k])
  {
    seq(|s|, k requires 0 <= k < |s| => LowerChar(s[k]))
  }

  /** `strpos($hay, $needle) !== false` (and `str_contains`). */
  predicate Contains(hay: string, needle: string)
  {
    needle <= hay || (|hay| > 0 && Contains(hay[1..], needle))
  }

  predicate StartsWith(s: string, p: string)
  {
    p <= s
  }

  predicate EndsWith(s: string, p: string)
  {
    |p| <= |s| && s[|s| - |p|..] == p
  }

  /** Contains agrees with "some position of hay starts with needle". */
  lemma {:induction false} ContainsAt(hay: string, needle: string)
    ensures Contains(hay, needle) <==> exists i :: 0 <= i <= |hay| && needle <= hay[i..]
  {
    if needle <= hay {
      assert hay[0..] == hay;
    } else if |hay| > 0 {
      ContainsAt(hay[1..], needle);
      if Contains(hay[1..], needle) {
        var i :| 0 <= i <= |hay[1..]| && needle <= hay[1..][i..];
        assert hay[1..][i..] == hay[i + 1..];
      }
      if exists i :: 0 <= i <= |hay| && needle <= hay[i..] {
        var i :| 0 <= i <= |hay| && needle <= hay[i..];
        assert i != 0;
        assert hay[1..][i - 1..] == hay[i..];
      }
    }
  }

  /** A single character is contained exactly when it occurs. */
  lemma {:induction false} ContainsChar(hay: string, c: char)
    ensures Contains(hay, [c]) <==> c in hay
  {
    if |hay| > 0 {
      ContainsChar(hay[1..], c);
      assert c in hay <==> hay[0] == c || c in hay[1..];
    }
  }

  /**
   * PHP `str_replace($search, $replace, $subject)` for one search string:
   * a left-to-right scan that replaces non-overlapping occurrences; an empty
   * search string leaves the subject unchanged.
   */
  function StrReplace(search: string, replace: string, subject: string): (r: string)
    decreases |subject|
  {
    if |search| == 0 || |subject| < |search| then subject
    else if search <= subject then replace + StrReplace(search, replace, subject[|search|..])
    else [subject[0]] + StrReplace(search, replace, subject[1..])
  }

  /** Replacing a string that does not occur changes nothing. */
  lemma {:induction false} StrReplaceAbsent(search: string, replace: string, subject: string)
    requires !Contains(subject, search)
    ensures StrReplace(search, replace, subject) == subject
    decreases |subject|
  {
    if |search| == 0 || |subject| < |search| {
    } else {
      assert !(search <= subject);
      StrReplaceAbsent(search, replace, subject[1..]);
      assert [subject[0]] + subject[1..] == subject;
    }
  }

  /** Replacing a string by itself changes nothing. */
  lemma {:induction false} StrReplaceSelf(search: string, subject: string)
    ensures StrReplace(search, search, subject) == subject
    decreases |subject|
  {
    if |search| == 0 || |subject| < |search| {
    } else if search <= subject {
      StrReplaceSelf(search, subject[|search|..]);
      assert search + subject[|search|..] == subject;
    } else {
      StrReplaceSelf(search, subject[1..]);
      assert [subject[0]] + subject[1..] == subject;
    }
  }

  /** PHP `implode($sep, $parts)`. */
  function Implode(sep: string, parts: seq<string>): (r: string)
    ensures |parts| == 0 ==> r == ""
    ensures |parts| == 1 ==> r == parts[0]
  {
    if |parts| == 0 then ""
    else if |parts| == 1 then parts[0]
    else parts[0] + sep + Implode(sep, parts[1..])
  }

  /** Imploding a concatenation joins both halves with one more separator. */
  lemma {:induction false} ImplodeAppend(sep: string, a: seq<string>, b: seq<string>)
    requires |a| > 0 && |b| > 0
    ensures Implode(sep, a + b) == Implode(sep, a) + sep + Implode(sep, b)
  {
    if |a| == 1 {
      assert (a + b)[1..] == b;
    } else {
      assert (a + b)[1..] == a[1..] + b;
      ImplodeAppend(sep, a[1..], b);
    }
  }

  /**
   * PHP `explode($delim, $s)` for a non-empty delimiter: the pieces between
   * left-to-right occurrences of the delimiter.
   */
  function Explode(delim: string, s: string): (r: seq<string>)
    requires |delim| > 0
    ensures |r| >= 1
    decreases |s|
  {
    if delim <= s then [""] + Explode(delim, s[|delim|..])
    else if |s| == 0 then [""]
    else
      var rest := Explode(delim, s[1..]);
      [[s[0]] + rest[0]] + rest[1..]
  }

  /** Exploding on a delimiter that does not occur gives the whole string. */
  lemma {:induction false} ExplodeAbsent(delim: string, s: string)
    requires |delim| > 0 && !Contains(s, delim)
    ensures Explode(delim, s) == [s]
    decreases |s|
  {
    if |s| > 0 {
      ExplodeAbsent(delim, s[1..]);
      assert [s[0]] + s[1..] == s;
    }
  }

  /** Exploding and then imploding with the same delimiter gives the string back. */
  lemma {:induction false} ImplodeExplode(delim: string, s: string)
    requires |delim| > 0
    ensures Implode(delim, Explode(delim, s)) == s
    decreases |s|
  {
    if delim <= s {
      var tail := s[|delim|..];
      ImplodeExplode(delim, tail);
      ImplodeEmptyHead(delim, Explode(delim, tail));
      assert delim + tail == s;
    } else if |s| > 0 {
      ImplodeExplode(delim, s[1..]);
      ImplodeCharHead(delim, s[0], Explode(delim, s[1..]));
      assert [s[0]] + s[1..] == s;
    }
  }

  lemma ImplodeEmptyHead(delim: string, t: seq<string>)
    requires |t| > 0
    ensures Implode(delim, [""] + t) == delim + Implode(delim, t)
  {
    assert ([""] + t)[1..] == t;
  }

  /** Prefixing the first piece with a character prefixes the imploded string with it. */
  lemma ImplodeCharHead(delim: string, c: char, rest: seq<string>)
    requires |rest| > 0
    ensures Implode(delim, [[c] + rest[0]] + rest[1..]) == [c] + Implode(delim, rest)
  {
    var r := [[c] + rest[0]] + rest[1..];
    if |rest| > 1 {
      assert r[1..] == rest[1..];
    }
  }

  /** Number of occurrences of a character. */
  function CountChar(c: char, s: string): nat
  {
    if |s| == 0 then 0 else (if s[0] == c then 1 else 0) + CountChar(c, s[1..])
  }

  /**
   * Exploding on a single character yields one more piece than there are
   * occurrences of it, and no piece contains it.
   */
  lemma {:induction false} ExplodeChar(c: char, s: string)
    ensures |Explode([c], s)| == CountChar(c, s) + 1
    ensures forall k :: 0 <= k < |Explode([c], s)| ==> c !in Explode([c], s)[k]
  {
    if [c] <= s {
      ExplodeChar(c, s[1..]);
    } else if |s| == 0 {
    } else {
      ExplodeChar(c, s[1..]);
      var rest := Explode([c], s[1..]);
      assert s[0] != c;
      var r := [[s[0]] + rest[0]] + rest[1..];
      assert forall k :: 1 <= k < |r| ==> r[k] == rest[k];
    }
  }

  /** The character `addslashes` puts a backslash before (NUL is written as \0). */
  predicate NeedsSlash(c: char)
  {
    c == '\'' || c == '"' || c == '\\' || c == '\0'
  }

  /** PHP `addslashes()`. */
  function AddSlashes(s: string): (r: string)
    ensures |r| >= |s|
  {
    if |s| == 0 then ""
    else
      var head: string := if s[0] == '\0' then "\\0" else if NeedsSlash(s[0]) then ['\\', s[0]] else [s[0]];
      head + AddSlashes(s[1..])
  }

  /** PHP `stripslashes()`: the inverse the plugin's readers apply. */
  function StripSlashes(s: string): (r: string)
  {
    if |s| == 0 then ""
    else if s[0] == '\\' then
      if |s| == 1 then ""
      else (if s[1] == '0' then "\0" else [s[1]]) + StripSlashes(s[2..])
    else [s[0]] + StripSlashes(s[1..])
  }

  /** `addslashes` loses nothing: `stripslashes` undoes it. */
  lemma {:induction false} StripAddSlashes(s: string)
    ensures StripSlashes(AddSlashes(s)) == s
  {
    if |s| > 0 {
      StripAddSlashes(s[1..]);
      var t := AddSlashes(s[1..]);
      if s[0] == '\0' {
        assert ("\\0" + t)[2..] == t;
      } else if NeedsSlash(s[0]) {
        assert (['\\', s[0]] + t)[2..] == t;
      } else {
        assert ([s[0]] + t)[1..] == t;
      }
      assert [s[0]] + s[1..] == s;
    }
  }

  function Min3(a: nat, b: nat, c: nat): nat
  {
    if a <= b && a <= c then a else if b <= c then b else c
  }

  /**
   * PHP `levenshtein($a, $b)` with unit costs: the least number of single
   * character insertions, deletions and substitutions turning a into b.
   */
  function Levenshtein(a: string, b: string): nat
    decreases |a| + |b|
  {
    if |a| == 0 then |b|
    else if |b| == 0 then |a|
    else
      Min3(Levenshtein(a[1..], b) + 1,
           Levenshtein(a, b[1..]) + 1,
           Levenshtein(a[1..], b[1..]) + (if a[0] == b[0] then 0 else 1))
  }

  /** A string is at distance 0 from itself. */
  lemma {:induction false} LevenshteinSelf(a: string)
    ensures Levenshtein(a, a) == 0
  {
    if |a| > 0 {
      LevenshteinSelf(a[1..]);
    }
  }

  /** The distance is at least the difference of the lengths. */
  lemma {:induction false} LevenshteinLengthGap(a: string, b: string)
    ensures Levenshtein(a, b) >= |a| - |b| && Levenshtein(a, b) >= |b| - |a|
    decreases |a| + |b|
  {
    if |a| > 0 && |b| > 0 {
      LevenshteinLengthGap(a[1..], b);
      LevenshteinLengthGap(a, b[1..]);
      LevenshteinLengthGap(a[1..], b[1..]);
    }
  }

  /** The distance is at most the longer length. */
  lemma {:induction false} LevenshteinAtMostLonger(a: string, b: string)
    ensures Levenshtein(a, b) <= if |a| >= |b| then |a| else |b|
    decreases |a| + |b|
  {
    if |a| > 0 && |b| > 0 {
      LevenshteinAtMostLonger(a[1..], b[1..]);
    }
  }
}
