/**
  The doctors page (src/pages/DoctorsPage.tsx): sending an invitation marks
  the doctor with that id as pending.
*/
module DoctorsPage {
  import opened Types
  import opened DoctorSearch

  /** `handleSendInvitation(doctorId)`: the new doctor list. */
  function HandleSendInvitation(ds: seq<Doctor>, id: string): (r: seq<Doctor>)
    ensures |r| == |ds|
    ensures forall i :: 0 <= i < |ds| && ds[i].id == id ==> r[i].invitationStatus == Some(Pending)
    ensures forall i :: 0 <= i < |ds| ==> r[i].(invitationStatus := ds[i].invitationStatus) == ds[i]
    ensures forall i :: 0 <= i < |ds| && ds[i].id != id ==> r[i] == ds[i]
  {
    seq(|ds|, i requires 0 <= i < |ds| =>
      if ds[i].id == id then ds[i].(invitationStatus := Some(Pending)) else ds[i])
  }

  /** Sending the same invitation twice is the same as sending it once. */
  lemma SendTwiceIsSendOnce(ds: seq<Doctor>, id: string)
    ensures HandleSendInvitation(HandleSendInvitation(ds, id), id) == HandleSendInvitation(ds, id)
  {
  }

  /** An id that is not on the list changes nothing. */
  lemma UnknownIdChangesNothing(ds: seq<Doctor>, id: string)
    requires forall i :: 0 <= i < |ds| ==> ds[i].id != id
    ensures HandleSendInvitation(ds, id) == ds
  {
  }

  /** There is no guard: a doctor who already accepted shows as pending again. */
  lemma AcceptedBecomesPending(ds: seq<Doctor>, i: nat)
    requires i < |ds| && ds[i].invitationStatus == Some(Accepted)
    ensures InvitationControl(ds[i].invitationStatus) == ConnectedLabel
    ensures InvitationControl(HandleSendInvitation(ds, ds[i].id)[i].invitationStatus) == PendingLabel
  {
  }

  /** Sending an invitation does not change which doctors a search lists. */
  lemma {:induction false} SendCommutesWithSearch(ds: seq<Doctor>, id: string, term: string)
    ensures FilterDoctors(HandleSendInvitation(ds, id), term) == HandleSendInvitation(FilterDoctors(ds, term), id)
  {
    if ds != [] {
      var r := HandleSendInvitation(ds, id);
      assert r[1..] == HandleSendInvitation(ds[1..], id);
      assert Matches(r[0], term) == Matches(ds[0], term);
      SendCommutesWithSearch(ds[1..], id, term);
      if Matches(ds[0], term) {
        var f := FilterDoctors(ds[1..], term);
        assert HandleSendInvitation([ds[0]] + f, id) == [r[0]] + HandleSendInvitation(f, id);
      }
    }
  }
}
