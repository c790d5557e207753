/**
 * The two guard chains that decide whether a regex hit is kept as an e-mail
 * address or a phone number (`is_valid_email_format`,
 * `is_valid_phone_format`). The final `filter_var(..., FILTER_VALIDATE_EMAIL)`
 * call and the final battery of phone patterns are passed in as predicates.
 */
module Validators {
  import opened PhpStr

  predicate IsDigit(c: char) { '0' <= c <= '9' }

  predicate IsLetter(c: char) { 'A' <= c <= 'Z' || 'a' <= c <= 'z' }

  /** `[A-Za-z0-9._+-]` */
  predicate IsLocalChar(c: char)
  {
    IsLetter(c) || IsDigit(c) || c == '.' || c == '_' || c == '+' || c == '-'
  }

  /** `[A-Za-z0-9.-]` */
  predicate IsDomainChar(c: char)
  {
    IsLetter(c) || IsDigit(c) || c == '.' || c == '-'
  }

  /** PCRE `\s` without UTF mode: space, \t, \n, \v, \f, \r. */
  predicate IsRegexSpace(c: char)
  {
    c == ' ' || c == '\t' || c == '\n' || c == '\U{B}' || c == '\U{C}' || c == '\r'
  }

  /** `[\d\s\-\.\(\)\+ext]` under the /i flag. */
  predicate IsPhoneChar(c: char)
  {
    IsDigit(c) || IsRegexSpace(c) || c == '-' || c == '.' || c == '(' || c == ')' || c == '+'
    || c == 'e' || c == 'x' || c == 't' || c == 'E' || c == 'X' || c == 'T'
  }

  /** `[\s\-\.\(\)\+]` */
  predicate IsSeparator(c: char)
  {
    IsRegexSpace(c) || c == '-' || c == '.' || c == '(' || c == ')' || c == '+'
  }

  predicate AllChars(s: string, p: char -> bool)
  {
    forall k :: 0 <= k < |s| ==> p(s[k])
  }

  /**
   * `preg_match('/^[set]+$/', s)`: one or more characters of the set; PCRE's
   * `$` also matches just before a final newline, so one trailing "\n" is let through.
   */
  predicate MatchesCharClassLine(s: string, p: char -> bool)
  {
    (|s| >= 1 && AllChars(s, p))
    || (|s| >= 2 && s[|s| - 1] == '\n' && AllChars(s[..|s| - 1], p))
  }

  /** The part after the last '.', as `end(explode('.', $domain))` picks it. */
  function LastLabel(domain: string): string
    decreases |domain|
  {
    if |domain| == 0 then ""
    else if domain[|domain| - 1] == '.' then ""
    else LastLabel(domain[..|domain| - 1]) + [domain[|domain| - 1]]
  }

  /** The local-part guards, in the order the source checks them. */
  predicate LocalGuards(local: string)
  {
    if IsEmptyStr(local) || |local| > 64 then false
    else if !MatchesCharClassLine(local, IsLocalChar) then false
    else if StartsWith(local, ".") || EndsWith(local, ".") then false
    else !Contains(local, "..")
  }

  /** The domain guards, ending with the TLD taken from the pieces between dots. */
  predicate DomainGuards(domain: string)
  {
    if IsEmptyStr(domain) || |domain| > 255 then false
    else if !Contains(domain, ".") then false
    else if !MatchesCharClassLine(domain, IsDomainChar) then false
    else if StartsWith(domain, ".") || EndsWith(domain, ".")
            || StartsWith(domain, "-") || EndsWith(domain, "-") then false
    else if Contains(domain, "..") then false
    else
      var labels := Explode(".", domain);
      var tld := labels[|labels| - 1];
      |tld| >= 2 && MatchesCharClassLine(tld, IsLetter)
  }

  /** The source's guard chain: trim, '@' and '.' present, two pieces around '@'. */
  function IsValidEmailFormat(email: string, filterVar: string -> bool): bool
  {
    var e := Trim(email);
    if !Contains(e, "@") || !Contains(e, ".") then false
    else
      var parts := Explode("@", e);
      if |parts| != 2 then false
      else if !LocalGuards(parts[0]) then false
      else if !DomainGuards(parts[1]) then false
      else filterVar(e)
  }

  /** The local part's conditions, stated once. */
  predicate LocalPartOk(local: string)
  {
    && 1 <= |local| <= 64 && local != "0"
    && MatchesCharClassLine(local, IsLocalChar)
    && local[0] != '.' && local[|local| - 1] != '.'
    && !Contains(local, "..")
  }

  /** The domain's conditions, with the TLD taken as the text after the last dot. */
  predicate DomainOk(domain: string)
  {
    && 1 <= |domain| <= 255 && domain != "0"
    && '.' in domain
    && AllChars(domain, IsDomainChar)
    && domain[0] != '.' && domain[|domain| - 1] != '.'
    && domain[0] != '-' && domain[|domain| - 1] != '-'
    && !Contains(domain, "..")
    && |LastLabel(domain)| >= 2 && AllChars(LastLabel(domain), IsLetter)
  }

  /**
   * Reference statement of what the chain accepts (before filter_var):
   * exactly one '@' splitting the address into a good local part and a good domain.
   */
  predicate WellFormedEmail(e: string)
  {
    exists i :: 0 <= i < |e| && e[i] == '@' && CountChar('@', e) == 1
                && LocalPartOk(e[..i]) && DomainOk(e[i + 1..])
  }

  /** Exploding on a character that occurs once, at i, splits around i. */
  lemma {:induction false} ExplodeOnce(c: char, s: string, i: nat)
    requires i < |s| && s[i] == c && CountChar(c, s) == 1
    ensures Explode([c], s) == [s[..i], s[i + 1..]]
  {
    if i == 0 {
      assert [c] <= s;
      assert CountChar(c, s) == 1 + CountChar(c, s[1..]);
      CountCharZero(c, s[1..]);
      ContainsChar(s[1..], c);
      ExplodeAbsent([c], s[1..]);
    } else {
      CountOneHead(c, s, i);
      assert !([c] <= s);
      ExplodeOnce(c, s[1..], i - 1);
      assert [s[0]] + s[1..][..i - 1] == s[..i];
      assert s[1..][i - 1 + 1..] == s[i + 1..];
    }
  }

  /** A character occurring once, at i > 0, is not at the head, and occurs once in the tail. */
  lemma CountOneHead(c: char, s: string, i: nat)
    requires 0 < i < |s| && s[i] == c && CountChar(c, s) == 1
    ensures s[0] != c && CountChar(c, s[1..]) == 1
  {
    assert CountChar(c, s) == (if s[0] == c then 1 else 0) + CountChar(c, s[1..]);
    if s[0] == c {
      assert s[1..][i - 1] == c;
      CountCharZero(c, s[1..]);
    }
  }

  lemma {:induction false} CountCharZero(c: char, s: string)
    ensures CountChar(c, s) == 0 <==> c !in s
  {
    if |s| > 0 {
      CountCharZero(c, s[1..]);
      assert c in s <==> s[0] == c || c in s[1..];
    }
  }

  /** Two or more pieces exactly when the character occurs, and then the first piece ends before it. */
  lemma {:induction false} ExplodeFirstPiece(c: char, s: string) returns (i: nat)
    requires c in s
    ensures i < |s| && s[i] == c && c !in s[..i]
    ensures Explode([c], s)[0] == s[..i] && Explode([c], s[i + 1..]) == Explode([c], s)[1..]
  {
    if s[0] == c {
      assert [c] <= s;
      i := 0;
    } else {
      assert !([c] <= s);
      assert c in s[1..] by { assert forall x :: x in s && x != s[0] ==> x in s[1..]; }
      var rest := Explode([c], s[1..]);
      assert Explode([c], s) == [[s[0]] + rest[0]] + rest[1..];
      var j := ExplodeFirstPiece(c, s[1..]);
      i := j + 1;
      PrefixCons(s, j);
      assert s[1..][j + 1..] == s[i + 1..];
    }
  }

  lemma PrefixCons(s: string, j: nat)
    requires j < |s|
    ensures s[..j + 1] == [s[0]] + s[1..][..j]
  {
  }

  /** The last piece of an explode on '.' is the last label. */
  lemma {:induction false} LastPieceIsLastLabel(s: string)
    ensures var parts := Explode(".", s); parts[|parts| - 1] == LastLabel(s)
    decreases |s|
  {
    if '.' in s {
      var i := ExplodeFirstPiece('.', s);
      LastPieceIsLastLabel(s[i + 1..]);
      LastLabelSuffix(s, i);
    } else {
      ContainsChar(s, '.');
      ExplodeAbsent(".", s);
      LastLabelNoDot(s);
    }
  }

  lemma {:induction false} LastLabelNoDot(s: string)
    requires '.' !in s
    ensures LastLabel(s) == s
    decreases |s|
  {
    if |s| > 0 {
      assert '.' !in s[..|s| - 1];
      LastLabelNoDot(s[..|s| - 1]);
      assert s[..|s| - 1] + [s[|s| - 1]] == s;
    }
  }

  /** The last label after a dot at i is the last label of what follows i. */
  lemma {:induction false} LastLabelSuffix(s: string, i: nat)
    requires i < |s| && s[i] == '.'
    ensures LastLabel(s) == LastLabel(s[i + 1..])
    decreases |s|
  {
    if |s| - 1 == i {
      assert s[i + 1..] == [];
    } else if s[|s| - 1] == '.' {
      assert s[i + 1..][|s[i + 1..]| - 1] == '.';
    } else {
      var t := s[..|s| - 1];
      LastLabelSuffix(t, i);
      assert t[i + 1..] == s[i + 1..][..|s[i + 1..]| - 1];
    }
  }

  /** On a trimmed string the trailing-newline allowance of `$` never applies. */
  lemma TrimmedCharClassLine(s: string, p: char -> bool)
    requires |s| > 0 ==> !IsTrimChar(s[|s| - 1])
    ensures MatchesCharClassLine(s, p) <==> |s| >= 1 && AllChars(s, p)
  {
  }

  lemma StartsEndsWithChar(s: string, c: char)
    ensures StartsWith(s, [c]) <==> |s| > 0 && s[0] == c
    ensures EndsWith(s, [c]) <==> |s| > 0 && s[|s| - 1] == c
  {
    if |s| > 0 {
      assert s[|s| - 1..] == [s[|s| - 1]];
    }
  }

  lemma LocalGuardsOk(local: string)
    ensures LocalGuards(local) <==> LocalPartOk(local)
  {
    StartsEndsWithChar(local, '.');
  }

  /** On a domain that does not end in a trim character, the guards are the reference conditions. */
  lemma DomainGuardsOk(domain: string)
    requires |domain| > 0 ==> !IsTrimChar(domain[|domain| - 1])
    ensures DomainGuards(domain) <==> DomainOk(domain)
  {
    StartsEndsWithChar(domain, '.');
    StartsEndsWithChar(domain, '-');
    TrimmedCharClassLine(domain, IsDomainChar);
    ContainsChar(domain, '.');
    if |domain| > 0 {
      LastPieceIsLastLabel(domain);
      LastLabelIsSuffix(domain);
      var tld := LastLabel(domain);
      if |tld| > 0 {
        assert tld[|tld| - 1] == domain[|domain| - 1];
        TrimmedCharClassLine(tld, IsLetter);
      }
    }
  }

  /** With exactly one '@', at i, the chain reduces to the two reference conditions. */
  lemma OneAtCase(e: string, i: nat, filterVar: string -> bool)
    requires i < |e| && e[i] == '@' && CountChar('@', e) == 1
    requires |e| > 0 ==> !IsTrimChar(e[|e| - 1])
    ensures WellFormedEmail(e) <==> LocalPartOk(e[..i]) && DomainOk(e[i + 1..])
    ensures Explode("@", e) == [e[..i], e[i + 1..]]
    ensures LocalGuards(e[..i]) <==> LocalPartOk(e[..i])
    ensures DomainGuards(e[i + 1..]) <==> DomainOk(e[i + 1..])
  {
    ExplodeOnce('@', e, i);
    LocalGuardsOk(e[..i]);
    var domain := e[i + 1..];
    assert |domain| > 0 ==> domain[|domain| - 1] == e[|e| - 1];
    DomainGuardsOk(domain);
    if WellFormedEmail(e) {
      var j :| 0 <= j < |e| && e[j] == '@' && CountChar('@', e) == 1
               && LocalPartOk(e[..j]) && DomainOk(e[j + 1..]);
      OnlyOneAt(e, i, j);
    }
  }

  /**
   * The guard chain accepts exactly the well-formed addresses that filter_var
   * accepts: both directions, with the trim the source applies first.
   */
  lemma EmailFormatCharacterised(email: string, filterVar: string -> bool)
    ensures IsValidEmailFormat(email, filterVar)
            <==> WellFormedEmail(Trim(email)) && filterVar(Trim(email))
  {
    var e := Trim(email);
    TrimProps(email);
    ContainsChar(e, '@');
    if '@' in e {
      ExplodeChar('@', e);
      var i := FirstIndex('@', e);
      if CountChar('@', e) == 1 {
        OneAtCase(e, i, filterVar);
        ContainsChar(e[i + 1..], '.');
        ContainsChar(e, '.');
        assert '.' in e[i + 1..] ==> '.' in e;
      }
    }
  }

  lemma FirstIndex(c: char, s: string) returns (i: nat)
    requires c in s
    ensures i < |s| && s[i] == c
  {
    i :| 0 <= i < |s| && s[i] == c;
  }

  lemma {:induction false} OnlyOneAt(e: string, i: nat, j: nat)
    requires i < |e| && j < |e| && e[i] == '@' && e[j] == '@' && CountChar('@', e) == 1
    ensures i == j
  {
    if i == 0 || j == 0 {
      if i != j {
        var k := if i == 0 then j else i;
        assert CountChar('@', e) == 1 + CountChar('@', e[1..]);
        assert e[1..][k - 1] == '@';
        CountCharZero('@', e[1..]);
      }
    } else {
      CountOneHead('@', e, i);
      OnlyOneAt(e[1..], i - 1, j - 1);
    }
  }

  lemma {:induction false} LastLabelIsSuffix(s: string)
    ensures |LastLabel(s)| <= |s| && LastLabel(s) == s[|s| - |LastLabel(s)|..]
    decreases |s|
  {
    if |s| > 0 && s[|s| - 1] != '.' {
      var t := s[..|s| - 1];
      LastLabelIsSuffix(t);
      assert LastLabel(s) == t[|t| - |LastLabel(t)|..] + [s[|s| - 1]];
    }
  }

  /** Digits of a string, in order (`preg_replace('/[^\d]/', '', $s)`). */
  function Digits(s: string): (r: string)
    ensures |r| <= |s|
    ensures AllChars(r, IsDigit)
  {
    if |s| == 0 then ""
    else (if IsDigit(s[0]) then [s[0]] else "") + Digits(s[1..])
  }

  /** `preg_replace('/[^\d+]/', '', $s)`. */
  function DigitsAndPlus(s: string): (r: string)
  {
    if |s| == 0 then ""
    else (if IsDigit(s[0]) || s[0] == '+' then [s[0]] else "") + DigitsAndPlus(s[1..])
  }

  /** Removing the '+' signs first does not change the digit count. */
  lemma {:induction false} DigitsOfDigitsAndPlus(s: string)
    ensures Digits(DigitsAndPlus(s)) == Digits(s)
  {
    if |s| > 0 {
      DigitsOfDigitsAndPlus(s[1..]);
      var h: string := if IsDigit(s[0]) || s[0] == '+' then [s[0]] else "";
      DigitsAppend(h, DigitsAndPlus(s[1..]));
      if IsDigit(s[0]) || s[0] == '+' {
        assert Digits(h) == (if IsDigit(s[0]) then [s[0]] else "") by {
          assert h[1..] == "";
        }
      }
    }
  }

  lemma {:induction false} DigitsAppend(a: string, b: string)
    ensures Digits(a + b) == Digits(a) + Digits(b)
  {
    if |a| > 0 {
      assert (a + b)[1..] == a[1..] + b;
      DigitsAppend(a[1..], b);
    } else {
      assert a + b == b;
    }
  }

  /** `preg_match('/^(\d)\1+$/', $digits)`: two or more copies of one digit. */
  predicate RepeatsOneDigit(d: string)
  {
    |d| >= 2 && AllChars(d, IsDigit) && forall k :: 0 <= k < |d| ==> d[k] == d[0]
  }

  /** The source's guard chain (lines 1561-1615). */
  function IsValidPhoneFormat(phone: string, patternBattery: string -> bool): bool
  {
    var p := Trim(phone);
    var digitCount := |Digits(DigitsAndPlus(p))|;
    if digitCount < 7 || digitCount > 15 then false
    else if !MatchesCharClassLine(p, IsPhoneChar) then false
    else if RepeatsOneDigit(Digits(p)) then false
    else if MatchesCharClassLine(p, IsSeparator) then false
    else patternBattery(p)
  }

  /** A string with a digit is never all separators. */
  lemma SeparatorOnlyExcluded(p: string)
    requires |Digits(p)| > 0
    ensures !MatchesCharClassLine(p, IsSeparator)
  {
    DigitWitnessExists(p);
    var k :| 0 <= k < |p| && IsDigit(p[k]);
    assert !IsSeparator(p[k]);
    if |p| >= 2 && p[|p| - 1] == '\n' {
      assert k < |p| - 1;
      assert p[..|p| - 1][k] == p[k];
    }
  }

  lemma {:induction false} DigitWitnessExists(p: string)
    requires |Digits(p)| > 0
    ensures exists k :: 0 <= k < |p| && IsDigit(p[k])
  {
    if !IsDigit(p[0]) {
      DigitWitnessExists(p[1..]);
      var k :| 0 <= k < |p[1..]| && IsDigit(p[1..][k]);
      assert p[k + 1] == p[1..][k];
    }
  }

  /**
   * Reference statement of the phone guards: between 7 and 15 digits (the
   * E.164 maximum), only phone characters, not one digit repeated, and
   * accepted by the pattern battery. The all-separator guard is redundant.
   */
  lemma PhoneFormatCharacterised(phone: string, patternBattery: string -> bool)
    ensures var p := Trim(phone);
            IsValidPhoneFormat(phone, patternBattery)
            <==> 7 <= |Digits(p)| <= 15 && |p| >= 1 && AllChars(p, IsPhoneChar)
                 && !RepeatsOneDigit(Digits(p)) && patternBattery(p)
  {
    var p := Trim(phone);
    TrimProps(phone);
    DigitsOfDigitsAndPlus(p);
    TrimmedCharClassLine(p, IsPhoneChar);
    if |Digits(p)| > 0 {
      SeparatorOnlyExcluded(p);
    }
  }
}
