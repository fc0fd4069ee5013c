/**
  The journal exercise (src/components/activities/JournalActivity.tsx):
  an entry is saved, and the activity completed, only when its trimmed
  text has a `length` of at least ten, counted in UTF-16 code units.
*/
module JournalActivity {
  import opened AsciiText

  const MinEntryLength := 10

  /** What a press of "Save Journal Entry" does. */
  datatype SubmitOutcome = TooShort | Saved(entry: string)

  /** `handleSubmit`: too short entries are refused; a saved entry calls `onComplete` once. */
  function HandleSubmit(entry: string): (r: SubmitOutcome)
    ensures r.TooShort? <==> Utf16Length(Trim(entry)) < MinEntryLength
    ensures r.Saved? ==> r.entry == entry
  {
    if Utf16Length(Trim(entry)) < MinEntryLength then TooShort else Saved(entry)
  }

  /** How many times `onComplete` is called. */
  function CompletionCalls(r: SubmitOutcome): nat {
    if r.Saved? then 1 else 0
  }

  /** A saved entry holds at least five characters, ten code units, that are not
      whitespace padding, and whitespace-only entries are always refused. */
  lemma SavedEntriesHaveContent(entry: string)
    ensures CompletionCalls(HandleSubmit(entry)) == 1 ==> 2 * |Trim(entry)| >= MinEntryLength
    ensures CompletionCalls(HandleSubmit(entry)) == 1 ==> Utf16Length(entry) >= |entry| >= |Trim(entry)| >= MinEntryLength / 2
    ensures AllWhitespace(entry) ==> CompletionCalls(HandleSubmit(entry)) == 0
  {
  }

  /** Within the Basic Multilingual Plane the minimum is ten characters. */
  lemma BmpEntryNeedsTenCharacters(entry: string)
    requires forall i :: 0 <= i < |entry| ==> entry[i] as int < 0x1_0000
    ensures HandleSubmit(entry).Saved? <==> |Trim(entry)| >= MinEntryLength
  {
    var t := Trim(entry);
    var k := |entry| - |TrimStart(entry)|;
    assert forall i :: 0 <= i < |t| ==> t[i] == entry[k + i];
    Utf16LengthOfBmp(t);
  }

  /** Five characters beyond U+FFFF are ten code units and are saved: "😢😢😢😢😢", for one. */
  lemma FiveAstralCharactersAreSaved(c: char)
    requires c as int >= 0x1_0000
    ensures HandleSubmit([c, c, c, c, c]).Saved?
  {
    var e := [c, c, c, c, c];
    assert !IsWhitespace(c);
    TrimOfUnpadded(e);
    assert Trim(e) == e;
    Utf16LengthOfAstral(e);
    assert Utf16Length(Trim(e)) == 10;
  }

  /** Leading and trailing whitespace does not count toward the minimum. */
  lemma PaddingDoesNotCount(ws1: string, entry: string, ws2: string)
    requires AllWhitespace(ws1) && AllWhitespace(ws2)
    ensures HandleSubmit(ws1 + entry + ws2).Saved? <==> HandleSubmit(entry).Saved?
  {
    TrimIgnoresPadding(ws1, entry, ws2);
  }
}
