/**
  The profile form (src/components/profile/ProfileUpdateForm.tsx): the
  profile name split into first and last name, field-by-field editing,
  and the name and age sent back on save.
*/
module ProfileUpdateForm {
  import opened Types
  import opened AsciiText

  /** No piece of a split contains the separator. */
  predicate NoSpace(s: string) {
    forall i :: 0 <= i < |s| ==> s[i] != ' '
  }

  /** `s.split(' ')`: the pieces between single spaces, empty pieces included. */
  function Split(s: string): (pieces: seq<string>)
    ensures |pieces| >= 1
  {
    if s == [] then [""]
    else
      var rest := Split(s[1..]);
      if s[0] == ' ' then [""] + rest
      else [[s[0]] + rest[0]] + rest[1..]
  }

  /** The first piece is a space-free prefix, and it is the only piece iff there is no space. */
  lemma {:induction false} SplitFirstPiece(s: string)
    ensures NoSpace(Split(s)[0]) && Split(s)[0] <= s
    ensures |Split(s)| == 1 <==> NoSpace(s)
  {
    if s != [] {
      SplitFirstPiece(s[1..]);
      var rest := Split(s[1..]);
      assert s == [s[0]] + s[1..];
      if s[0] != ' ' {
        assert [s[0]] + rest[0] <= [s[0]] + s[1..];
        assert NoSpace(s) <==> NoSpace(s[1..]);
      }
    }
  }

  /** No piece of a split holds a space. */
  lemma {:induction false} SplitPiecesHaveNoSpace(s: string)
    ensures forall i :: 0 <= i < |Split(s)| ==> NoSpace(Split(s)[i])
  {
    if s != [] {
      SplitPiecesHaveNoSpace(s[1..]);
    }
  }

  /** `pieces.join(' ')`. */
  function Join(pieces: seq<string>): string
    requires |pieces| >= 1
  {
    if |pieces| == 1 then pieces[0] else pieces[0] + " " + Join(pieces[1..])
  }

  /** Joining the pieces of a split with single spaces gives back the string. */
  lemma {:induction false} JoinSplit(s: string)
    ensures Join(Split(s)) == s
  {
    if s != [] {
      JoinSplit(s[1..]);
      var rest := Split(s[1..]);
      assert s == [s[0]] + s[1..];
      if s[0] == ' ' {
        assert ([""] + rest)[1..] == rest;
      } else {
        var p := [[s[0]] + rest[0]] + rest[1..];
        assert p[1..] == rest[1..];
        if |rest| > 1 {
          assert Join(rest) == rest[0] + " " + Join(rest[1..]);
        }
      }
    }
  }

  /** Splitting a string that starts with a space-free word extends the first piece. */
  lemma {:induction false} SplitPrefix(a: string, t: string)
    requires NoSpace(a)
    ensures Split(a + t) == [a + Split(t)[0]] + Split(t)[1..]
    decreases |a|
  {
    if a == [] {
      var u := Split(t);
      assert a + t == t && a + u[0] == u[0];
      assert u == [u[0]] + u[1..];
    } else {
      var u := Split(t);
      SplitPrefix(a[1..], t);
      var rest := Split(a[1..] + t);
      assert rest[0] == a[1..] + u[0] && rest[1..] == u[1..];
      assert a + t == [a[0]] + (a[1..] + t);
      SplitLetter(a[0], a[1..] + t);
      assert [a[0]] + rest[0] == a + u[0];
    }
  }

  /** A character other than a space extends the first piece. */
  lemma SplitLetter(c: char, x: string)
    requires c != ' '
    ensures Split([c] + x) == [[c] + Split(x)[0]] + Split(x)[1..]
  {
    assert ([c] + x)[0] == c && ([c] + x)[1..] == x;
  }

  /** Splitting the join of space-free pieces gives back the pieces. */
  lemma {:induction false} SplitJoin(pieces: seq<string>)
    requires |pieces| >= 1 && forall i :: 0 <= i < |pieces| ==> NoSpace(pieces[i])
    ensures Split(Join(pieces)) == pieces
  {
    if |pieces| == 1 {
      SplitPrefix(pieces[0], "");
      assert pieces[0] + "" == pieces[0];
    } else {
      SplitJoin(pieces[1..]);
      var t := " " + Join(pieces[1..]);
      SplitPrefix(pieces[0], t);
      assert t[1..] == Join(pieces[1..]);
      assert Split(t) == [""] + pieces[1..];
      assert pieces[0] + t == Join(pieces);
      assert pieces[0] + "" == pieces[0];
      assert pieces == [pieces[0] + ""] + pieces[1..];
    }
  }

  /** `profile.name?.split(' ')[0] || ''`: the text before the first space. */
  function InitialFirstName(name: string): (first: string)
    ensures first <= name && NoSpace(first)
    ensures first == name <==> NoSpace(name)
    ensures first != name ==> name[|first|] == ' '
  {
    JoinSplit(name);
    SplitFirstPiece(name);
    if |Split(name)| > 1 then
      SplitAtFirstSpace(name);
      Split(name)[0]
    else
      Split(name)[0]
  }

  /** A name with a space is its first piece, a space, and the join of the other pieces. */
  lemma SplitAtFirstSpace(name: string)
    requires |Split(name)| > 1
    ensures name == Split(name)[0] + " " + Join(Split(name)[1..])
  {
    JoinSplit(name);
  }

  /** `profile.name?.split(' ')[1] || ''`: the text between the first and second spaces. */
  function InitialLastName(name: string): (last: string)
    ensures NoSpace(last)
    ensures NoSpace(name) ==> last == ""
    ensures !NoSpace(name) ==> last == InitialFirstName(name[|InitialFirstName(name)| + 1..])
  {
    var pieces := Split(name);
    SplitFirstPiece(name);
    SplitPiecesHaveNoSpace(name);
    if |pieces| > 1 then
      SplitAtFirstSpace(name);
      var k := |pieces[0]| + 1;
      assert name[k..] == Join(pieces[1..]);
      assert forall i :: 0 <= i < |pieces[1..]| ==> NoSpace(pieces[1..][i]) by {
        assert forall i :: 0 <= i < |pieces[1..]| ==> pieces[1..][i] == pieces[i + 1];
      }
      SplitJoin(pieces[1..]);
      pieces[1]
    else ""
  }

  /** The saved name: first and last name joined by a space, then trimmed. */
  function FullName(first: string, last: string): (name: string)
    ensures |name| <= |first| + |last| + 1
    ensures name == [] <==> AllWhitespace(first) && AllWhitespace(last)
  {
    var joined := first + " " + last;
    assert AllWhitespace(joined) <==> AllWhitespace(first) && AllWhitespace(last) by {
      assert forall i :: 0 <= i < |first| ==> joined[i] == first[i];
      assert forall i :: 0 <= i < |last| ==> joined[|first| + 1 + i] == last[i];
    }
    Trim(joined)
  }

  /** A word: non-empty and free of whitespace. */
  predicate IsWord(w: string) {
    w != [] && forall i :: 0 <= i < |w| ==> !IsWhitespace(w[i])
  }

  /** A name of two words is split into those words, and saving the form unchanged
      gives the same name back. */
  lemma TwoWordNameRoundTrip(first: string, last: string)
    requires IsWord(first) && IsWord(last)
    ensures InitialFirstName(first + " " + last) == first
    ensures InitialLastName(first + " " + last) == last
    ensures FullName(InitialFirstName(first + " " + last), InitialLastName(first + " " + last)) == first + " " + last
  {
    assert NoSpace(first) && NoSpace(last);
    assert [first, last][1..] == [last];
    assert Join([first, last]) == first + " " + last;
    SplitJoin([first, last]);
    var name := first + " " + last;
    assert name[0] == first[0] && name[|name| - 1] == last[|last| - 1];
    TrimOfUnpadded(name);
  }

  /** A one-word name becomes the first name with an empty last name, and saving gives it back. */
  lemma OneWordNameRoundTrip(name: string)
    requires IsWord(name)
    ensures InitialFirstName(name) == name && InitialLastName(name) == ""
    ensures FullName(InitialFirstName(name), InitialLastName(name)) == name
  {
    assert NoSpace(name);
    assert (name + " " + "") == name + " ";
    assert AllWhitespace(" ");
    TrimIgnoresPadding("", name, " ");
    assert "" + name + " " == name + " ";
    TrimOfUnpadded(name);
  }

  /** Pieces after the second are dropped: the form only keeps the first two words. */
  lemma ExtraPiecesDropped(first: string, last: string, rest: string)
    requires NoSpace(first) && NoSpace(last)
    ensures InitialFirstName(first + " " + last + " " + rest) == first
    ensures InitialLastName(first + " " + last + " " + rest) == last
  {
    var name := first + " " + last + " " + rest;
    assert name == first + (" " + (last + (" " + rest)));
    SplitThreeParts(first, last, rest);
  }

  /** The split of `first last rest` starts with `first` and `last`. */
  lemma SplitThreeParts(first: string, last: string, rest: string)
    requires NoSpace(first) && NoSpace(last)
    ensures Split(first + (" " + (last + (" " + rest)))) == [first, last] + Split(rest)
  {
    SplitWordThenSpace(last, rest);
    SplitWordThenSpace(first, last + (" " + rest));
    assert [first] + ([last] + Split(rest)) == [first, last] + Split(rest);
  }

  /** A space-free word followed by a space is the first piece of the split. */
  lemma SplitWordThenSpace(w: string, x: string)
    requires NoSpace(w)
    ensures Split(w + (" " + x)) == [w] + Split(x)
  {
    SplitAfterSpace(x);
    SplitPrefix(w, " " + x);
    assert w + "" == w;
    assert ([""] + Split(x))[1..] == Split(x);
  }

  /** A leading space closes an empty first piece. */
  lemma SplitAfterSpace(x: string)
    ensures Split(" " + x) == [""] + Split(x)
  {
    assert (" " + x)[1..] == x;
  }

  /** The `age` payload: left out, a parsed number of years, or `NaN`. */
  datatype AgeValue = Undefined | NotANumber | Years(years: nat)

  /** `profile.age?.toString() || ''`. */
  function InitialAgeField(age: Option<nat>): (field: string)
    ensures field == "" <==> age.None?
    ensures AllDigits(field)
  {
    match age
    case None => ""
    case Some(n) => NatToDecimal(n)
  }

  /** `formData.age ? parseInt(formData.age) : undefined`, for the leading decimal digits. */
  function ParseAge(field: string): (v: AgeValue)
    ensures v.Undefined? <==> field == ""
    ensures field != "" && AllDigits(field) ==> v == Years(DecimalValue(field))
    ensures (field != "" && !IsDigit(field[0]) && field[0] != '-' && field[0] != '+' &&
             !IsWhitespace(field[0])) ==> v == NotANumber
  {
    if field == "" then Undefined
    else
      var digits := LeadingDigits(field);
      if digits == "" then NotANumber
      else
        assert AllDigits(field) ==> digits == field;
        Years(DecimalValue(digits))
  }

  /** An age loaded from the profile and saved unchanged is the same age. */
  lemma AgeRoundTrip(age: Option<nat>)
    ensures ParseAge(InitialAgeField(age)) == (if age.None? then Undefined else Years(age.value))
  {
    if age.Some? {
      DecimalRoundTrip(age.value);
    }
  }

  /** What `onUpdateProfile` receives: only the name and the age. */
  datatype ProfileUpdate = ProfileUpdate(name: string, age: AgeValue)

  datatype FormField =
    | NameField | FirstNameField | LastNameField | AgeField
    | GenderField | EmailField | PhoneField | AssignedDoctorNameField

  /** The fields an input of the form edits. The assigned doctor is shown read-only,
      and `name` is only set from the profile. */
  type EditableField = f: FormField | f != NameField && f != AssignedDoctorNameField
    witness FirstNameField

  /** The `formData` record of the form. */
  class ProfileForm {
    var name: string
    var firstName: string
    var lastName: string
    var age: string
    var gender: string
    var email: string
    var phone: string
    var assignedDoctorName: string

    /** The value of one field. */
    function Get(field: FormField): string
      reads this
    {
      match field
      case NameField => name
      case FirstNameField => firstName
      case LastNameField => lastName
      case AgeField => age
      case GenderField => gender
      case EmailField => email
      case PhoneField => phone
      case AssignedDoctorNameField => assignedDoctorName
    }

    /** The form as first filled from the profile. */
    constructor (profile: UserProfile)
      ensures name == profile.name
      ensures firstName == InitialFirstName(profile.name) && lastName == InitialLastName(profile.name)
      ensures age == InitialAgeField(profile.age)
      ensures gender == "" && email == "" && phone == ""
      ensures assignedDoctorName == (if profile.assignedDoctorName.Some? then profile.assignedDoctorName.value else "")
    {
      name := profile.name;
      firstName := InitialFirstName(profile.name);
      lastName := InitialLastName(profile.name);
      age := InitialAgeField(profile.age);
      gender, email, phone := "", "", "";
      assignedDoctorName := if profile.assignedDoctorName.Some? then profile.assignedDoctorName.value else "";
    }

    /** `handleInputChange`: the named field takes the value; no other field changes,
        so `name` and `assignedDoctorName` keep the profile's values. */
    method HandleInputChange(field: EditableField, value: string)
      modifies this
      ensures Get(field) == value
      ensures forall f :: f != field ==> Get(f) == old(Get(f))
      ensures name == old(name) && assignedDoctorName == old(assignedDoctorName)
    {
      if field == FirstNameField {
        firstName := value;
      } else if field == LastNameField {
        lastName := value;
      } else if field == AgeField {
        age := value;
      } else if field == GenderField {
        gender := value;
      } else if field == EmailField {
        email := value;
      } else {
        phone := value;
      }
    }

    /** `handleSaveChanges`: the payload handed to `onUpdateProfile`; the form is not changed. */
    method SaveChanges() returns (update: ProfileUpdate)
      ensures update.name == FullName(firstName, lastName)
      ensures update.age.Undefined? <==> age == ""
      ensures age != "" && AllDigits(age) ==> update.age == Years(DecimalValue(age))
    {
      update := ProfileUpdate(FullName(firstName, lastName), ParseAge(age));
    }
  }
}
