/**
 * Profile completeness: each mandatory profile field has its own acceptance
 * rule, and a profile counts as complete when every one of them passes.
 */
module ProfileUtils {
  import opened Wrappers
  import opened Text

  /** A JavaScript value as read from a profile document. */
  datatype Value =
    | Undefined
    | Null
    | Str(s: string)
    | Number(n: int)
    | Boolean(b: bool)
    /** A Firestore `Timestamp`; `validDate` is whether its date has a valid time. */
    | Timestamp(validDate: bool)
    | Other

  /** The ten mandatory profile fields. */
  datatype ProfileField =
    | Name | Email | Phone | Dob | Gender | Occupation | Upi
    | FavoriteFormat | FavoriteTeam | FavoriteCricketer

  /** `MANDATORY_PROFILE_FIELDS`, in declaration order. */
  const MandatoryFields: seq<ProfileField> :=
    [Name, Email, Phone, Dob, Gender, Occupation, Upi, FavoriteFormat, FavoriteTeam, FavoriteCricketer]

  /** A profile object; `profile[field]` of a field that is not set is `undefined`. */
  type Profile = map<ProfileField, Value>

  function Lookup(p: Profile, f: ProfileField): Value {
    if f in p then p[f] else Undefined
  }

  // ---------------------------------------------------------------------------
  // The regular expressions, each as the split it asks for and as a scan
  // ---------------------------------------------------------------------------

  /** No whitespace (`\s`) and no `@` in `s[lo..hi]`. */
  predicate NoSpaceOrAtIn(s: string, lo: int, hi: int)
    requires 0 <= lo <= hi <= |s|
  {
    forall k :: lo <= k < hi ==> !IsJsSpace(s[k]) && s[k] != '@'
  }

  /**
   * `/^[^\s@]+@[^\s@]+\.[^\s@]+$/` matched with the `@` at `i` and the
   * escaped dot at `j`.
   */
  predicate EmailSplitAt(s: string, i: int, j: int) {
    0 < i && i + 1 < j && j + 1 < |s| && s[i] == '@' && s[j] == '.' &&
    NoSpaceOrAtIn(s, 0, i) && NoSpaceOrAtIn(s, i + 1, j) && NoSpaceOrAtIn(s, j + 1, |s|)
  }

  ghost predicate MatchesEmailPattern(s: string) {
    exists i, j :: EmailSplitAt(s, i, j)
  }

  /**
   * The email check as one scan: a single `@` that is not first, no
   * whitespace anywhere, and a `.` in the domain that is neither its first nor
   * its last character.
   */
  predicate IsEmailShaped(s: string) {
    '@' in s &&
    var i := FirstIndex(s, '@');
    0 < i && NoSpaceOrAtIn(s, 0, i) && NoSpaceOrAtIn(s, i + 1, |s|) &&
    exists j | i + 1 < j < |s| - 1 :: s[j] == '.'
  }

  lemma EmailShapedIffMatches(s: string)
    ensures IsEmailShaped(s) <==> MatchesEmailPattern(s)
  {
    if IsEmailShaped(s) {
      var i := FirstIndex(s, '@');
      var j :| i + 1 < j < |s| - 1 && s[j] == '.';
      assert EmailSplitAt(s, i, j);
    }
    if MatchesEmailPattern(s) {
      var i, j :| EmailSplitAt(s, i, j);
      assert s[i] == '@';
      var f := FirstIndex(s, '@');
      assert f == i;
      assert s[j] != '@';
      assert NoSpaceOrAtIn(s, i + 1, |s|) by {
        forall k | i + 1 <= k < |s|
          ensures !IsJsSpace(s[k]) && s[k] != '@'
        {
          if k < j { assert NoSpaceOrAtIn(s, i + 1, j); }
          else if k > j { assert NoSpaceOrAtIn(s, j + 1, |s|); }
        }
      }
    }
  }

  /** A character of a UPI handle: `[a-zA-Z0-9.\-_]`. */
  predicate UpiHandleChar(c: char) {
    IsAsciiLetter(c) || IsAsciiDigit(c) || c == '.' || c == '-' || c == '_'
  }

  /** `/^[a-zA-Z0-9.\-_]{2,256}@[a-zA-Z]{2,64}$/` matched with the `@` at `i`. */
  predicate UpiSplitAt(s: string, i: int) {
    0 <= i < |s| && s[i] == '@' && 2 <= i <= 256 && 2 <= |s| - i - 1 <= 64 &&
    (forall k :: 0 <= k < i ==> UpiHandleChar(s[k])) &&
    (forall k :: i < k < |s| ==> IsAsciiLetter(s[k]))
  }

  ghost predicate MatchesUpiPattern(s: string) {
    exists i :: UpiSplitAt(s, i)
  }

  /** The UPI check at the first `@`, the only place the pattern can split. */
  predicate IsUpiShaped(s: string) {
    '@' in s && UpiSplitAt(s, FirstIndex(s, '@'))
  }

  lemma UpiShapedIffMatches(s: string)
    ensures IsUpiShaped(s) <==> MatchesUpiPattern(s)
  {
    if MatchesUpiPattern(s) {
      var i :| UpiSplitAt(s, i);
      var f := FirstIndex(s, '@');
      assert f == i;
    }
  }

  /** `/^\d{10,}$/`: ten or more ASCII digits. */
  predicate IsPhoneShaped(s: string) {
    |s| >= 10 && AllDigits(s)
  }

  // ---------------------------------------------------------------------------
  // Field rules
  // ---------------------------------------------------------------------------

  /**
   * `isFieldFilled`. `dateParses` stands for `!isNaN(new Date(s).getTime())`,
   * which depends on the runtime's date parser.
   */
  function IsFieldFilled(field: ProfileField, value: Value, dateParses: string -> bool): (r: bool)
    ensures value.Undefined? || value.Null? ==> !r
    ensures field in {Name, Occupation, FavoriteCricketer} ==>
              (r <==> value.Str? && |Trim(value.s)| >= 3)
    ensures field == Email ==> (r <==> value.Str? && MatchesEmailPattern(Trim(value.s)))
    ensures field == Phone ==> (r <==> value.Str? && |Trim(value.s)| >= 10 && AllDigits(Trim(value.s)))
    ensures field == Upi ==> (r <==> value.Str? && MatchesUpiPattern(Trim(value.s)))
    ensures field == Dob ==>
              (r <==> (value.Timestamp? && value.validDate) || (value.Str? && dateParses(value.s)))
    ensures field in {Gender, FavoriteFormat, FavoriteTeam} ==> (r <==> value.Str? && Trim(value.s) != "")
  {
    if value.Undefined? || value.Null? then false
    else match field
      case Name | Occupation | FavoriteCricketer => value.Str? && |Trim(value.s)| >= 3
      case Email =>
        if value.Str? then EmailShapedIffMatches(Trim(value.s)); IsEmailShaped(Trim(value.s))
        else false
      case Phone => value.Str? && IsPhoneShaped(Trim(value.s))
      case Upi =>
        if value.Str? then UpiShapedIffMatches(Trim(value.s)); IsUpiShaped(Trim(value.s))
        else false
      case Dob => (value.Timestamp? && value.validDate) || (value.Str? && dateParses(value.s))
      case Gender | FavoriteFormat | FavoriteTeam => value.Str? && |Trim(value.s)| > 0
  }

  /** The phone rule on a string value. */
  lemma PhoneRule(s: string, dateParses: string -> bool)
    ensures IsFieldFilled(Phone, Str(s), dateParses) <==> IsPhoneShaped(Trim(s))
  {
  }

  /** `MANDATORY_PROFILE_FIELDS.every(...)` over a suffix of the list. */
  function AllFilled(fields: seq<ProfileField>, p: Profile, dateParses: string -> bool): (r: bool)
    ensures r <==> forall k :: 0 <= k < |fields| ==> IsFieldFilled(fields[k], Lookup(p, fields[k]), dateParses)
  {
    if fields == [] then true
    else IsFieldFilled(fields[0], Lookup(p, fields[0]), dateParses) &&
         AllFilled(fields[1..], p, dateParses)
  }

  /**
   * `isProfileConsideredComplete`: a missing profile is incomplete, and a
   * present one is complete when every field passes its rule.
   */
  function IsProfileConsideredComplete(profile: Option<Profile>, dateParses: string -> bool): (r: bool)
    ensures r <==> profile.Some? &&
                   forall f: ProfileField :: IsFieldFilled(f, Lookup(profile.value, f), dateParses)
  {
    if profile.None? then false
    else
      var ok := AllFilled(MandatoryFields, profile.value, dateParses);
      assert ok ==> forall f: ProfileField :: IsFieldFilled(f, Lookup(profile.value, f), dateParses) by {
        if ok {
          forall f: ProfileField
            ensures IsFieldFilled(f, Lookup(profile.value, f), dateParses)
          {
            assert f == MandatoryFields[MandatoryIndex(f)];
          }
        }
      }
      ok
  }

  /** The position of each field in the mandatory list: every field is listed. */
  function MandatoryIndex(f: ProfileField): (k: nat)
    ensures k < |MandatoryFields| && MandatoryFields[k] == f
  {
    match f
    case Name => 0
    case Email => 1
    case Phone => 2
    case Dob => 3
    case Gender => 4
    case Occupation => 5
    case Upi => 6
    case FavoriteFormat => 7
    case FavoriteTeam => 8
    case FavoriteCricketer => 9
  }

  /** A name of three spaces is not filled in: it is trimmed before its length is taken. */
  lemma BlankNameNotFilled(dateParses: string -> bool)
    ensures !IsFieldFilled(Name, Str("   "), dateParses)
  {
    TrimPadded("   ", "", "");
    assert "   " + "" + "" == "   ";
  }

  /** Surrounding white space does not matter to the phone rule: ten padded digits are a phone number. */
  lemma PaddedPhoneFilled(digits: string, pad: string, dateParses: string -> bool)
    requires |digits| >= 10 && AllDigits(digits)
    requires forall i :: 0 <= i < |pad| ==> IsJsSpace(pad[i])
    ensures IsFieldFilled(Phone, Str(pad + digits + pad), dateParses)
  {
    assert !IsJsSpace(digits[0]) && !IsJsSpace(digits[|digits| - 1]) by {
      assert IsAsciiDigit(digits[0]) && IsAsciiDigit(digits[|digits| - 1]);
    }
    TrimPadded(pad, digits, pad);
  }
}
