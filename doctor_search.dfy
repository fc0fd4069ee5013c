/**
  The doctor search (src/components/dashboard/DoctorSearch.tsx): the
  case-insensitive filter on name and speciality, the control shown for
  each invitation status, and the guard on sending an invitation.
*/
module DoctorSearch {
  import opened Types
  import opened AsciiText
  import opened Sequences

  /** The filter's condition: the lower-cased name or speciality includes the lower-cased term. */
  predicate Matches(d: Doctor, term: string)
    ensures term == "" ==> Matches(d, term)
  {
    assert ToLower("") == "";
    Contains(ToLower(d.name), ToLower(term)) || Contains(ToLower(d.speciality), ToLower(term))
  }

  /** `filteredDoctors`: the matching doctors, in list order. */
  function FilterDoctors(ds: seq<Doctor>, term: string): (r: seq<Doctor>)
    ensures |r| <= |ds|
    ensures forall i :: 0 <= i < |r| ==> Matches(r[i], term)
    ensures forall d :: d in r <==> d in ds && Matches(d, term)
    ensures IsSubsequence(r, ds)
  {
    if ds == [] then []
    else if Matches(ds[0], term) then
      var rest := FilterDoctors(ds[1..], term);
      assert ([ds[0]] + rest)[1..] == rest;
      [ds[0]] + rest
    else
      FilterDoctors(ds[1..], term)
  }

  /** The search keeps every copy of a matching doctor: each one occurs in the
      result exactly as often as in the list, and a doctor that does not match never. */
  lemma {:induction false} FilterDoctorsKeepsCopies(ds: seq<Doctor>, term: string)
    ensures forall d :: multiset(FilterDoctors(ds, term))[d] == (if Matches(d, term) then multiset(ds)[d] else 0)
  {
    if ds != [] {
      FilterDoctorsKeepsCopies(ds[1..], term);
      assert ds == [ds[0]] + ds[1..];
    }
  }

  /** An empty search lists every doctor. */
  lemma {:induction false} EmptyTermKeepsAll(ds: seq<Doctor>)
    ensures FilterDoctors(ds, "") == ds
  {
    if ds != [] {
      assert ToLower("") == "";
      assert Matches(ds[0], "");
      EmptyTermKeepsAll(ds[1..]);
    }
  }

  /** The search ignores the case of the term. */
  lemma {:induction false} SearchIgnoresCase(ds: seq<Doctor>, term: string)
    ensures FilterDoctors(ds, ToLower(term)) == FilterDoctors(ds, term)
  {
    ToLowerIdempotent(term);
    if ds != [] {
      assert Matches(ds[0], ToLower(term)) == Matches(ds[0], term);
      SearchIgnoresCase(ds[1..], term);
    }
  }

  /** What is shown under a doctor's card. */
  datatype StatusControl = PendingLabel | ConnectedLabel | SendInvitationButton

  /** `getInvitationStatus`: pending and accepted get a label; anything else offers the invitation. */
  function InvitationControl(status: Option<InvitationStatus>): (c: StatusControl)
    ensures c == PendingLabel <==> status == Some(Pending)
    ensures c == ConnectedLabel <==> status == Some(Accepted)
    ensures c == SendInvitationButton <==> status == None || status == Some(NotInvited)
  {
    match status
    case Some(Pending) => PendingLabel
    case Some(Accepted) => ConnectedLabel
    case _ => SendInvitationButton
  }

  /** `handleSendInvitation`: the id passed to `onSendInvitation`, if a doctor is selected. */
  function SendSelected(selected: Option<Doctor>): (sent: Option<string>)
    ensures sent.None? <==> selected.None?
    ensures sent.Some? ==> sent.value == selected.value.id
  {
    match selected
    case None => None
    case Some(d) => Some(d.id)
  }

  /** "No doctors found matching your search criteria." is shown exactly when no doctor matches. */
  function NoDoctorsMessage(ds: seq<Doctor>, term: string): (shown: bool)
    ensures shown <==> forall i :: 0 <= i < |ds| ==> !Matches(ds[i], term)
  {
    var r := FilterDoctors(ds, term);
    assert r != [] ==> r[0] in ds;
    |r| == 0
  }
}
