/**
  The password reset form (src/components/profile/PasswordResetForm.tsx):
  the strength score of the new password, its Weak/Medium/Strong rating,
  the requirement checklist, and the form's validity and reset.
*/
module PasswordResetForm {
  import opened AsciiText

  predicate IsLowerLetter(c: char) { 'a' <= c <= 'z' }
  predicate IsUpperLetter(c: char) { 'A' <= c <= 'Z' }

  /** `/[a-z]/.test(p)` */
  predicate HasLower(p: string) { exists i :: 0 <= i < |p| && IsLowerLetter(p[i]) }
  /** `/[A-Z]/.test(p)` */
  predicate HasUpper(p: string) { exists i :: 0 <= i < |p| && IsUpperLetter(p[i]) }
  /** `/[0-9]/.test(p)` */
  predicate HasDigit(p: string) { exists i :: 0 <= i < |p| && IsDigit(p[i]) }
  /** `/[^A-Za-z0-9]/.test(p)`: some character is neither an ASCII letter nor a digit. */
  predicate HasSpecial(p: string) {
    exists i :: 0 <= i < |p| && !IsLowerLetter(p[i]) && !IsUpperLetter(p[i]) && !IsDigit(p[i])
  }

  /** `password.length >= 8`, the length counted in UTF-16 code units. */
  predicate LongEnough(p: string) {
    Utf16Length(p) >= 8
  }

  /** The five lines of the requirement checklist, in the order shown. */
  function Requirements(p: string): (met: seq<bool>)
    ensures |met| == 5
  {
    [LongEnough(p), HasLower(p), HasUpper(p), HasDigit(p), HasSpecial(p)]
  }

  /** The points each requirement is worth. */
  const Weights: seq<nat> := [25, 25, 25, 15, 10]

  /** The points of the requirements that are met. */
  function WeightedSum(met: seq<bool>, weights: seq<nat>): nat
    requires |met| == |weights|
  {
    if met == [] then 0
    else (if met[0] then weights[0] else 0) + WeightedSum(met[1..], weights[1..])
  }

  /** `calculatePasswordStrength`: the points of the met criteria, capped at 100. */
  function Strength(p: string): (s: nat)
    ensures s <= 100
    ensures s == 0 <==> p == ""
    ensures LongEnough(p) && HasLower(p) && HasUpper(p) && HasDigit(p) && HasSpecial(p) ==> s == 100
  {
    var sum := (if LongEnough(p) then 25 else 0) + (if HasLower(p) then 25 else 0)
             + (if HasUpper(p) then 25 else 0) + (if HasDigit(p) then 15 else 0)
             + (if HasSpecial(p) then 10 else 0);
    assert p != [] ==> HasLower(p) || HasUpper(p) || HasDigit(p) || HasSpecial(p) by {
      if p != [] {
        assert IsLowerLetter(p[0]) || IsUpperLetter(p[0]) || IsDigit(p[0]) ||
               (!IsLowerLetter(p[0]) && !IsUpperLetter(p[0]) && !IsDigit(p[0]));
      }
    }
    if sum < 100 then sum else 100
  }

  /** The checklist shows exactly the criteria that are scored: the strength is the
      weighted count of the checked lines, and the cap of 100 is never needed. */
  lemma StrengthIsChecklistScore(p: string)
    ensures Strength(p) == WeightedSum(Requirements(p), Weights)
  {
    var met := Requirements(p);
    assert met[4..][1..] == [] && Weights[4..][1..] == [];
    assert WeightedSum(met[4..], Weights[4..]) == (if HasSpecial(p) then 10 else 0);
    assert met[3..][1..] == met[4..] && Weights[3..][1..] == Weights[4..];
    assert WeightedSum(met[3..], Weights[3..]) == (if HasDigit(p) then 15 else 0) + WeightedSum(met[4..], Weights[4..]);
    assert met[2..][1..] == met[3..] && Weights[2..][1..] == Weights[3..];
    assert WeightedSum(met[2..], Weights[2..]) == (if HasUpper(p) then 25 else 0) + WeightedSum(met[3..], Weights[3..]);
    assert met[1..][1..] == met[2..] && Weights[1..][1..] == Weights[2..];
    assert WeightedSum(met[1..], Weights[1..]) == (if HasLower(p) then 25 else 0) + WeightedSum(met[2..], Weights[2..]);
  }

  /** The number of the three 25-point criteria (length, lower case, upper case) that hold. */
  function MajorCriteria(p: string): nat {
    (if LongEnough(p) then 1 else 0) + (if HasLower(p) then 1 else 0) + (if HasUpper(p) then 1 else 0)
  }

  /** A password rates Strong (60 or more) exactly when it meets all three 25-point
      criteria, or two of them together with a digit or a special character. */
  lemma StrongIff(p: string)
    ensures Strength(p) >= 60 <==> MajorCriteria(p) == 3 || (MajorCriteria(p) == 2 && (HasDigit(p) || HasSpecial(p)))
  {
  }

  datatype Rating = Weak | Medium | Strong

  /** `getPasswordStrengthText`: below 30 Weak, below 60 Medium, otherwise Strong. */
  function Rate(strength: int): (r: Rating)
    ensures r == Weak <==> strength < 30
    ensures r == Strong <==> strength >= 60
  {
    if strength < 30 then Weak else if strength < 60 then Medium else Strong
  }

  function RatingText(r: Rating): (text: string)
    ensures text == "Weak" <==> r == Weak
    ensures text == "Medium" <==> r == Medium
    ensures text == "Strong" <==> r == Strong
  {
    match r
    case Weak => "Weak"
    case Medium => "Medium"
    case Strong => "Strong"
  }

  datatype Colour = Red | Yellow | Green

  /** `getPasswordStrengthColor`. */
  function BarColour(strength: int): (c: Colour)
    ensures c == Red <==> Rate(strength) == Weak
    ensures c == Yellow <==> Rate(strength) == Medium
    ensures c == Green <==> Rate(strength) == Strong
  {
    if strength < 30 then Red else if strength < 60 then Yellow else Green
  }

  /** The colour of the rating text, chosen with the comparisons reversed. */
  function TextColour(strength: int): (c: Colour)
    ensures c == BarColour(strength)
  {
    if strength >= 60 then Green else if strength >= 30 then Yellow else Red
  }

  datatype Field = Current | New | Confirm

  /** The three password fields and the strength shown for the new one. */
  class PasswordForm {
    var current: string
    var newPassword: string
    var confirm: string
    var strength: int
    var showCurrent: bool
    var showNew: bool
    var showConfirm: bool

    /** The strength shown is always that of the new password. */
    ghost predicate Valid()
      reads this
    {
      strength == Strength(newPassword)
    }

    constructor ()
      ensures Valid() && current == "" && newPassword == "" && confirm == "" && strength == 0
    {
      current, newPassword, confirm := "", "", "";
      strength := 0;
      showCurrent, showNew, showConfirm := false, false, false;
    }

    /** `togglePasswordVisibility`: flips whether the named field is shown as text. */
    method ToggleVisibility(field: Field)
      modifies this
      ensures showCurrent == (if field == Current then !old(showCurrent) else old(showCurrent))
      ensures showNew == (if field == New then !old(showNew) else old(showNew))
      ensures showConfirm == (if field == Confirm then !old(showConfirm) else old(showConfirm))
      ensures current == old(current) && newPassword == old(newPassword) &&
              confirm == old(confirm) && strength == old(strength)
    {
      match field
      case Current => showCurrent := !showCurrent;
      case New => showNew := !showNew;
      case Confirm => showConfirm := !showConfirm;
    }

    /** `isFormValid`. */
    function IsFormValid(): (ok: bool)
      reads this
      requires Valid()
      ensures ok ==> current != "" && confirm == newPassword && !MismatchShown()
      ensures ok ==> Rate(Strength(newPassword)) == Strong
      ensures current != "" && newPassword != "" && confirm == newPassword ==>
                (ok <==> Rate(Strength(newPassword)) == Strong)
    {
      current != "" && newPassword != "" && confirm != "" && newPassword == confirm && strength >= 60
    }

    /** "Passwords do not match" is shown once something is typed in the confirmation and it differs. */
    function MismatchShown(): (shown: bool)
      reads this
      ensures shown ==> confirm != "" && confirm != newPassword
      ensures confirm != "" ==> (shown <==> confirm != newPassword)
    {
      confirm != "" && newPassword != confirm
    }

    /** `handlePasswordChange`: only the named field changes; the strength is recomputed
        only for the new password. */
    method HandlePasswordChange(field: Field, value: string)
      requires Valid()
      modifies this
      ensures Valid()
      ensures current == (if field == Current then value else old(current))
      ensures newPassword == (if field == New then value else old(newPassword))
      ensures confirm == (if field == Confirm then value else old(confirm))
      ensures field != New ==> strength == old(strength)
      ensures showCurrent == old(showCurrent) && showNew == old(showNew) && showConfirm == old(showConfirm)
    {
      match field
      case Current => current := value;
      case New =>
        newPassword := value;
        strength := Strength(value);
      case Confirm => confirm := value;
    }

    /** `handleUpdatePassword`: an invalid form is left as it is; a valid one is reset. */
    method HandleUpdatePassword() returns (updated: bool)
      requires Valid()
      modifies this
      ensures Valid()
      ensures updated == old(IsFormValid())
      ensures !updated ==> current == old(current) && newPassword == old(newPassword) &&
                           confirm == old(confirm) && strength == old(strength)
      ensures updated ==> current == "" && newPassword == "" && confirm == "" && strength == 0
      ensures showCurrent == old(showCurrent) && showNew == old(showNew) && showConfirm == old(showConfirm)
    {
      if !IsFormValid() {
        return false;
      }
      current, newPassword, confirm := "", "", "";
      strength := 0;
      return true;
    }
  }

  /** A password beyond U+FFFF earns the length points with fewer than eight characters:
      "aB😀😀😀😀" is six characters and ten code units. */
  lemma ShortAstralPasswordIsLongEnough(c: char)
    requires c as int >= 0x1_0000
    ensures |"aB" + [c, c, c, c]| == 6 && LongEnough("aB" + [c, c, c, c])
    ensures Strength("aB" + [c, c, c, c]) >= 75
  {
    var p := "aB" + [c, c, c, c];
    Utf16LengthOfAstral([c, c, c, c]);
    assert p[1..][1..] == [c, c, c, c];
    assert IsLowerLetter(p[0]) && IsUpperLetter(p[1]);
  }

  /** A form that can be submitted carries a new password rated Strong, which meets at
      least two of the length, lower-case and upper-case criteria. */
  lemma ValidFormNeedsStrongPassword(current: string, newPassword: string, confirm: string)
    requires current != "" && newPassword != "" && confirm != "" && newPassword == confirm
    requires Strength(newPassword) >= 60
    ensures Rate(Strength(newPassword)) == Strong
    ensures MajorCriteria(newPassword) >= 2
    ensures HasLower(newPassword) || HasUpper(newPassword)
  {
    StrongIff(newPassword);
  }
}
