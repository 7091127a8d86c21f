/** The `[TurkishPhoneNumber]` validation attribute: optional input, separators stripped,
    then `05` followed by exactly nine digits. */
module PhoneValidator {
  import opened Options
  import opened Text

  /** Characters of the class `[\s\-\(\)]` that the validator removes. */
  predicate IsSeparator(ch: char)
  {
    IsWhiteSpace(ch) || ch == '-' || ch == '(' || ch == ')'
  }

  /** The digits `\d` accepts in this model: ASCII '0'..'9'. */
  predicate IsDigit(ch: char)
  {
    '0' <= ch <= '9'
  }

  /** `Regex.Replace(s, @"[\s\-\(\)]", "")`. */
  function Strip(s: string): (r: string)
    ensures |r| <= |s|
    ensures forall i :: 0 <= i < |r| ==> !IsSeparator(r[i])
    ensures forall ch :: ch in s && !IsSeparator(ch) ==> ch in r
    ensures forall ch :: ch in r ==> ch in s
  {
    if s == [] then []
    else if IsSeparator(s[0]) then Strip(s[1..])
    else [s[0]] + Strip(s[1..])
  }

  /** `Regex.IsMatch(s, @"^05\d{9}$")`. */
  predicate MatchesPattern(s: string)
  {
    |s| == 11 && s[0] == '0' && s[1] == '5' && forall i :: 2 <= i < 11 ==> IsDigit(s[i])
  }

  /** The verdict of the attribute on a value; `None` is a null value. */
  predicate IsValid(value: Option<string>)
  {
    value.None? || IsBlank(value.value) || MatchesPattern(Strip(value.value))
  }

  /** A string made only of separators. */
  predicate AllSeparators(s: string)
  {
    forall i :: 0 <= i < |s| ==> IsSeparator(s[i])
  }

  lemma {:induction false} StripConcat(a: string, b: string)
    ensures Strip(a + b) == Strip(a) + Strip(b)
  {
    if a == [] {
      assert a + b == b;
    } else {
      assert (a + b)[0] == a[0];
      assert (a + b)[1..] == a[1..] + b;
      StripConcat(a[1..], b);
    }
  }

  /** Stripping twice is stripping once. */
  lemma {:induction false} StripIdempotent(s: string)
    ensures Strip(Strip(s)) == Strip(s)
  {
    if s != [] {
      StripIdempotent(s[1..]);
      if !IsSeparator(s[0]) {
        assert Strip(s) == [s[0]] + Strip(s[1..]);
        StripConcat([s[0]], Strip(s[1..]));
        assert Strip([s[0]]) == [s[0]] + Strip([]);
      }
    }
  }

  lemma {:induction false} StripSeparators(sep: string)
    requires AllSeparators(sep)
    ensures Strip(sep) == []
  {
    if sep != [] {
      StripSeparators(sep[1..]);
    }
  }

  /** A string holding a non-white-space character is not blank. */
  lemma NotBlankWith(s: string, i: int)
    requires 0 <= i < |s| && !IsWhiteSpace(s[i])
    ensures !IsBlank(s)
  {
  }

  lemma StripIgnoresInsertion(a: string, sep: string, b: string)
    requires AllSeparators(sep)
    ensures Strip(a + sep + b) == Strip(a + b)
  {
    StripConcat(a + sep, b);
    StripConcat(a, sep);
    StripConcat(a, b);
    StripSeparators(sep);
  }

  lemma InsertionKeepsNonBlank(a: string, sep: string, b: string)
    requires !IsBlank(a + b)
    ensures !IsBlank(a + sep + b)
  {
    var i :| 0 <= i < |a + b| && !IsWhiteSpace((a + b)[i]);
    if i < |a| {
      assert (a + sep + b)[i] == (a + b)[i];
      NotBlankWith(a + sep + b, i);
    } else {
      assert (a + sep + b)[i + |sep|] == (a + b)[i];
      NotBlankWith(a + sep + b, i + |sep|);
    }
  }

  /** Inserting separators anywhere in a number that is not blank leaves the verdict as it was. */
  lemma SeparatorsDoNotMatter(a: string, sep: string, b: string)
    requires AllSeparators(sep)
    requires !IsBlank(a + b)
    ensures IsValid(Some(a + sep + b)) == IsValid(Some(a + b))
  {
    StripIgnoresInsertion(a, sep, b);
    InsertionKeepsNonBlank(a, sep, b);
  }

  /** Any character that is neither a separator nor a digit (the '+' of "+90", a '.') makes
      the value invalid. */
  lemma ForeignCharacterRejects(s: string, i: int)
    requires 0 <= i < |s| && !IsSeparator(s[i]) && !IsDigit(s[i])
    ensures !IsValid(Some(s))
  {
    NotBlankWith(s, i);
    var r := Strip(s);
    assert s[i] in s;
    assert s[i] in r;
    if MatchesPattern(r) {
      var j :| 0 <= j < |r| && r[j] == s[i];
      assert IsDigit(r[j]);
    }
  }

  /** Null, empty and white-space-only values pass: the number is optional. */
  lemma MissingNumberIsValid(s: string)
    requires IsBlank(s)
    ensures IsValid(None) && IsValid(Some(s))
  {
  }

  /** A value that is valid and not blank strips to exactly eleven characters. */
  lemma ValidNumberHasElevenDigits(s: string)
    requires IsValid(Some(s)) && !IsBlank(s)
    ensures |Strip(s)| == 11
    ensures forall i :: 0 <= i < 11 ==> IsDigit(Strip(s)[i])
  {
  }

  /** A string without separators strips to itself. */
  lemma {:induction false} StripKeepsClean(s: string)
    requires forall i :: 0 <= i < |s| ==> !IsSeparator(s[i])
    ensures Strip(s) == s
  {
    if s != [] {
      StripKeepsClean(s[1..]);
    }
  }

  /** A string of digits strips to itself. */
  lemma DigitsStripToThemselves(s: string)
    requires forall i :: 0 <= i < |s| ==> IsDigit(s[i])
    ensures Strip(s) == s
  {
    StripKeepsClean(s);
  }

  lemma ExampleMobile()
    ensures IsValid(Some("05321234567"))
  {
    var s := "05321234567";
    assert forall i :: 0 <= i < |s| ==> IsDigit(s[i]);
    DigitsStripToThemselves(s);
    assert MatchesPattern(s);
  }

  lemma ExampleSpaced()
    ensures IsValid(Some("0532 1234567"))
  {
    var a, sep, b := "0532", " ", "1234567";
    assert IsValid(Some(a + b)) by {
      assert a + b == "05321234567";
      ExampleMobile();
    }
    assert !IsBlank(a + b) by {
      NotBlankWith(a + b, 0);
    }
    assert AllSeparators(sep);
    SeparatorsDoNotMatter(a, sep, b);
    assert a + sep + b == "0532 1234567";
  }

  lemma ExampleLandline()
    ensures !IsValid(Some("04321234567"))
  {
    var s := "04321234567";
    assert forall i :: 0 <= i < |s| ==> IsDigit(s[i]);
    DigitsStripToThemselves(s);
    NotBlankWith("04321234567", 0);
  }

  lemma ExampleInternational()
    ensures !IsValid(Some("+905321234567"))
  {
    ForeignCharacterRejects("+905321234567", 0);
  }
}
