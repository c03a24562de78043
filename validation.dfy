/**
 * The text validator of the input form (`isValidInput` and its argument record
 * `IValidationText`). The validator measures the value after JavaScript's
 * `String.prototype.trim`, which removes a leading and a trailing run of
 * white-space and line-terminator characters.
 */
module Validation {

  /** The characters `trim` removes: ECMAScript WhiteSpace (tab, vertical tab,
      form feed, space, no-break space, byte order mark and the Unicode space
      separators) and LineTerminator (line feed, carriage return, line and
      paragraph separators). */
  predicate IsWhitespace(c: char) {
    var u := c as int;
    u == 0x09 || u == 0x0A || u == 0x0B || u == 0x0C || u == 0x0D || u == 0x20 ||
    u == 0xA0 || u == 0x1680 || (0x2000 <= u <= 0x200A) || u == 0x2028 ||
    u == 0x2029 || u == 0x202F || u == 0x205F || u == 0x3000 || u == 0xFEFF
  }

  predicate AllWhitespace(s: string) {
    forall k :: 0 <= k < |s| ==> IsWhitespace(s[k])
  }

  /** A string that `trim` leaves alone: empty, or neither end is white-space. */
  predicate IsTrimmed(s: string) {
    s == [] || (!IsWhitespace(s[0]) && !IsWhitespace(s[|s| - 1]))
  }

  /** Removes the leading white-space run. */
  function TrimStart(s: string): (r: string)
    ensures |r| <= |s|
    ensures r != [] ==> !IsWhitespace(r[0])
  {
    if s == [] then []
    else if IsWhitespace(s[0]) then TrimStart(s[1..])
    else s
  }

  /** Removes the trailing white-space run. */
  function TrimEnd(s: string): (r: string)
    ensures |r| <= |s|
    ensures r != [] ==> !IsWhitespace(r[|r| - 1]) && r[0] == s[0]
  {
    if s == [] then []
    else if IsWhitespace(s[|s| - 1]) then TrimEnd(s[..|s| - 1])
    else s
  }

  /** JavaScript's `String.prototype.trim`. */
  function Trim(s: string): (r: string)
    ensures |r| <= |s|
    ensures IsTrimmed(r)
  {
    TrimEnd(TrimStart(s))
  }

  /** What `TrimStart` removes is a white-space run. */
  lemma {:induction false} TrimStartSplit(s: string) returns (lead: string)
    ensures AllWhitespace(lead) && s == lead + TrimStart(s)
  {
    if s == [] || !IsWhitespace(s[0]) {
      lead := [];
    } else {
      var rest := TrimStartSplit(s[1..]);
      lead := [s[0]] + rest;
      assert s == [s[0]] + s[1..];
    }
  }

  /** What `TrimEnd` removes is a white-space run. */
  lemma {:induction false} TrimEndSplit(s: string) returns (trail: string)
    ensures AllWhitespace(trail) && s == TrimEnd(s) + trail
  {
    if s == [] || !IsWhitespace(s[|s| - 1]) {
      trail := [];
    } else {
      var n := |s| - 1;
      var rest := TrimEndSplit(s[..n]);
      trail := rest + [s[n]];
      assert s == s[..n] + [s[n]];
    }
  }

  /** `s` is its trimmed part with a white-space run on either side. */
  lemma TrimDecomposition(s: string) returns (lead: string, trail: string)
    ensures AllWhitespace(lead) && AllWhitespace(trail)
    ensures s == lead + Trim(s) + trail
  {
    lead := TrimStartSplit(s);
    trail := TrimEndSplit(TrimStart(s));
  }

  lemma AllWhitespaceConcat(a: string, b: string)
    requires AllWhitespace(a) && AllWhitespace(b)
    ensures AllWhitespace(a + b)
  {
  }

  lemma {:induction false} TrimStartOfPadded(lead: string, m: string)
    requires AllWhitespace(lead)
    requires m == [] || !IsWhitespace(m[0])
    ensures TrimStart(lead + m) == m
  {
    if lead != [] {
      assert (lead + m)[1..] == lead[1..] + m;
      TrimStartOfPadded(lead[1..], m);
    }
  }

  lemma {:induction false} TrimEndOfPadded(m: string, trail: string)
    requires AllWhitespace(trail)
    requires m == [] || !IsWhitespace(m[|m| - 1])
    ensures TrimEnd(m + trail) == m
  {
    if trail != [] {
      var n := |trail| - 1;
      assert (m + trail)[..|m + trail| - 1] == m + trail[..n];
      TrimEndOfPadded(m, trail[..n]);
    }
  }

  /** Trimming a trimmed string surrounded by white-space gives that string back:
      the result of `trim` is determined by the part between the runs. */
  lemma TrimOfPadded(lead: string, m: string, trail: string)
    requires AllWhitespace(lead) && AllWhitespace(trail)
    requires IsTrimmed(m)
    ensures Trim(lead + m + trail) == m
  {
    if m == [] {
      assert lead + m + trail == lead + trail + [];
      TrimStartOfPadded(lead + trail, []);
    } else {
      assert lead + m + trail == lead + (m + trail);
      TrimStartOfPadded(lead, m + trail);
      TrimEndOfPadded(m, trail);
    }
  }

  /** Trimming twice is trimming once. */
  lemma TrimIdempotent(s: string)
    ensures Trim(Trim(s)) == Trim(s)
  {
    assert Trim(s) == [] + Trim(s) + [];
    TrimOfPadded([], Trim(s), []);
  }

  /** Extra white-space on either side of a value does not change its trimmed form. */
  lemma TrimIgnoresPadding(lead: string, s: string, trail: string)
    requires AllWhitespace(lead) && AllWhitespace(trail)
    ensures Trim(lead + s + trail) == Trim(s)
  {
    var a, b := TrimDecomposition(s);
    AllWhitespaceConcat(lead, a);
    AllWhitespaceConcat(b, trail);
    assert lead + s + trail == (lead + a) + Trim(s) + (b + trail);
    TrimOfPadded(lead + a, Trim(s), b + trail);
  }

  /** The `length` of a JavaScript string holding `s`: the number of UTF-16 code
      units, two for a character outside the Basic Multilingual Plane. */
  function Utf16Length(s: string): (n: nat)
    ensures |s| <= n <= 2 * |s|
  {
    if s == [] then 0 else (if s[0] as int >= 0x1_0000 then 2 else 1) + Utf16Length(s[1..])
  }

  /** A text of Basic Multilingual Plane characters has one code unit per character. */
  lemma {:induction false} Utf16LengthOfBmp(s: string)
    requires forall k :: 0 <= k < |s| ==> s[k] as int < 0x1_0000
    ensures Utf16Length(s) == |s|
  {
    if s != [] {
      assert forall k :: 0 <= k < |s[1..]| ==> s[1..][k] == s[k + 1];
      Utf16LengthOfBmp(s[1..]);
    }
  }

  /** The length of a concatenation is the sum of the parts' lengths. */
  lemma {:induction false} Utf16LengthConcat(a: string, b: string)
    ensures Utf16Length(a + b) == Utf16Length(a) + Utf16Length(b)
  {
    if a == [] {
      assert a + b == b;
    } else {
      assert (a + b)[0] == a[0] && (a + b)[1..] == a[1..] + b;
      Utf16LengthConcat(a[1..], b);
    }
  }

  /** Every character from U+10000 up counts as two code units. */
  lemma Utf16LengthOfAstral(c: char)
    requires c as int >= 0x1_0000
    ensures Utf16Length([c]) == 2
  {
    assert [c][1..] == [];
  }

  /** An emoji such as U+1F600 counts as two code units. */
  lemma AstralCountsTwice()
    ensures Utf16Length("\U{1F600}") == 2
  {
    assert "\U{1F600}"[1..] == [];
  }

  /** The argument record `IValidationText`; an absent `required` is `false`. */
  datatype ValidationText = ValidationText(value: string, required: bool, minLength: int, maxLength: int)

  /** `isValidInput`: an optional field always passes; a required one passes when
      its trimmed value is non-empty and its length, in UTF-16 code units, lies
      within the bounds. */
  function IsValidInput(v: ValidationText): (ok: bool)
    ensures ok <==> !v.required || (0 < Utf16Length(Trim(v.value)) && v.minLength <= Utf16Length(Trim(v.value)) <= v.maxLength)
  {
    var inputLength := Utf16Length(Trim(v.value));
    if !v.required then true
    else if inputLength == 0 then false
    else if inputLength < v.minLength || inputLength > v.maxLength then false
    else true
  }

  lemma NotRequiredAlwaysValid(value: string, minLength: int, maxLength: int)
    ensures IsValidInput(ValidationText(value, false, minLength, maxLength))
  {
  }

  lemma RequiredBlankInvalid(value: string, minLength: int, maxLength: int)
    requires AllWhitespace(value)
    ensures !IsValidInput(ValidationText(value, true, minLength, maxLength))
  {
    TrimOfPadded(value, [], []);
    assert value + [] + [] == value;
  }

  lemma RequiredNonEmptyInRange(v: ValidationText)
    requires v.required && Utf16Length(Trim(v.value)) > 0
    ensures IsValidInput(v) <==> v.minLength <= Utf16Length(Trim(v.value)) <= v.maxLength
  {
  }

  /** With inverted bounds no required value passes. */
  lemma EmptyRangeRejectsAll(v: ValidationText)
    requires v.required && v.minLength > v.maxLength
    ensures !IsValidInput(v)
  {
  }

  /** Only the trimmed length, `required` and the bounds decide the result. */
  lemma DependsOnTrimmedLength(v: ValidationText, w: ValidationText)
    requires Utf16Length(Trim(v.value)) == Utf16Length(Trim(w.value))
    requires v.required == w.required && v.minLength == w.minLength && v.maxLength == w.maxLength
    ensures IsValidInput(v) == IsValidInput(w)
  {
  }

  /** Leading or trailing white-space added to the value never changes the result. */
  lemma PaddingDoesNotMatter(v: ValidationText, lead: string, trail: string)
    requires AllWhitespace(lead) && AllWhitespace(trail)
    ensures IsValidInput(v.(value := lead + v.value + trail)) == IsValidInput(v)
  {
    TrimIgnoresPadding(lead, v.value, trail);
  }
}
