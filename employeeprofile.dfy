/** The employee profile page: the case-note list with its input box, the
    derived contact e-mail and employee number, and the visa-history rows. */
module EmployeeProfile {
  import opened Wrappers
  import opened Seqs
  import opened Text
  import opened DataTable

  datatype CaseNote = CaseNote(id: string, date: string, author: string, note: string)

  const CurrentAdmin := "Current Admin"

  const InitialNotes := [
    CaseNote("1", "2024-10-15 10:30 AM", "Sarah Johnson",
             "Initial visa application submitted. " + "Awaiting approval from immigration office."),
    CaseNote("2", "2024-09-20 2:15 PM", "Michael Chen",
             "Documents verified and sent to legal team for review.")]

  /** The notes card: the list, the text typed so far, and whether the input box is open. */
  class NotePanel {
    var notes: seq<CaseNote>
    var newNote: string
    var showNoteInput: bool

    constructor ()
      ensures notes == InitialNotes && newNote == "" && !showNoteInput
    {
      notes := InitialNotes;
      newNote := "";
      showNoteInput := false;
    }

    /** The "Add Note" button toggles the input box. */
    method ToggleNoteInput()
      modifies this
      ensures showNoteInput == !old(showNoteInput)
      ensures notes == old(notes) && newNote == old(newNote)
    {
      showNoteInput := !showNoteInput;
    }

    /** Typing into the box. */
    method SetNewNote(value: string)
      modifies this
      ensures newNote == value
      ensures notes == old(notes) && showNoteInput == old(showNoteInput)
    {
      newNote := value;
    }

    /** `handleAddNote`: a blank input does nothing; otherwise the note, as
        typed, goes in front of the list and the box is cleared and closed.
        The clock-derived id and timestamp are parameters. */
    method HandleAddNote(id: string, date: string)
      modifies this
      ensures IsBlank(old(newNote)) ==>
                notes == old(notes) && newNote == old(newNote) && showNoteInput == old(showNoteInput)
      ensures !IsBlank(old(newNote)) ==>
                notes == [CaseNote(id, date, CurrentAdmin, old(newNote))] + old(notes) &&
                newNote == "" && !showNoteInput
    {
      if !IsBlank(newNote) {
        var note := CaseNote(id, date, CurrentAdmin, newNote);
        notes := [note] + notes;
        newNote := "";
        showNoteInput := false;
      }
    }

    /** The Cancel button: clears and closes the box, the notes stay. */
    method Cancel()
      modifies this
      ensures notes == old(notes) && newNote == "" && !showNoteInput
    {
      showNoteInput := false;
      newNote := "";
    }
  }

  const EmailDomain := "@umbc.edu"

  /** The profile's e-mail: the name lower-cased, each whitespace run turned
      into one ".", then "@umbc.edu". The local part has no whitespace and,
      with the dots taken out, keeps the name's other characters in order. */
  function DerivedEmail(name: string): (email: string)
    ensures |email| >= |EmailDomain| && email[|email| - |EmailDomain|..] == EmailDomain
    ensures forall i :: 0 <= i < |email| - |EmailDomain| ==> !IsSpace(email[i])
    ensures email == SpacePieces(ToLower(name), 0, '.') + EmailDomain
    ensures Filter(email[..|email| - |EmailDomain|], NotChar('.'))
         == Filter(ToLower(name), NeitherCharNorSpace('.'))
  {
    var local := ReplaceSpaceRuns(ToLower(name), '.');
    ReplaceSpaceRunsIsPieces(ToLower(name), '.');
    ReplaceSpaceRunsKeepsText(ToLower(name), '.');
    var email := local + EmailDomain;
    assert email[..|local|] == local;
    email
  }

  /** Two words separated by any whitespace run: the run becomes one '.'
      between the lower-cased words. */
  lemma DerivedEmailOfTwoWords(first: string, gap: string, last: string)
    requires forall i :: 0 <= i < |first| ==> !IsSpace(first[i])
    requires forall i :: 0 <= i < |last| ==> !IsSpace(last[i])
    requires gap != [] && IsBlank(gap)
    ensures DerivedEmail(first + gap + last) == ToLower(first) + "." + ToLower(last) + EmailDomain
  {
    ToLowerAppend(first + gap, last);
    ToLowerAppend(first, gap);
    LowerKeepsSpaces(first);
    LowerKeepsSpaces(gap);
    LowerKeepsSpaces(last);
    var lf, lg, ll := ToLower(first), ToLower(gap), ToLower(last);
    assert ToLower(first + gap + last) == lf + lg + ll;
    ReplaceTwoWords(lf, lg, ll, '.');
  }

  /** A name without whitespace is only lower-cased. */
  lemma DerivedEmailOfOneWord(name: string)
    requires forall i :: 0 <= i < |name| ==> !IsSpace(name[i])
    ensures DerivedEmail(name) == ToLower(name) + EmailDomain
  {
    ReplaceSpaceRunsNoSpace(ToLower(name), '.');
  }

  /** The employee number: "EMP-" and the id left-padded with '0' to five characters. */
  function EmployeeId(id: string): (r: string)
    ensures |r| == 4 + (if |id| >= 5 then |id| else 5)
    ensures r[..4] == "EMP-"
    ensures r[|r| - |id|..] == id
    ensures forall i :: 4 <= i < |r| - |id| ==> r[i] == '0'
    ensures |id| >= 5 ==> r == "EMP-" + id
  {
    var padded := PadStart(id, 5, '0');
    var r := "EMP-" + padded;
    assert r[4..] == padded;
    r
  }

  /** The digits after "EMP-" have the value of the id. */
  lemma EmployeeIdValue(id: string)
    requires AllDigits(id)
    ensures AllDigits(EmployeeId(id)[4..]) && DigitsValue(EmployeeId(id)[4..]) == DigitsValue(id)
  {
    assert EmployeeId(id)[4..] == PadStart(id, 5, '0');
    PadStartValue(id, 5);
  }

  /** Different numeric ids give different employee numbers: the padding only
      adds leading zeros, which do not change the value. */
  lemma EmployeeIdInjective(a: nat, b: nat)
    requires EmployeeId(NatToString(a)) == EmployeeId(NatToString(b))
    ensures a == b
  {
    EmployeeIdValue(NatToString(a));
    EmployeeIdValue(NatToString(b));
    NatToStringRoundTrip(a);
    NatToStringRoundTrip(b);
  }

  datatype VisaHistoryEntry = VisaHistoryEntry(
    id: string,
    visaType: string,
    status: string,
    startDate: string,
    expirationDate: string,
    comments: Option<string>)

  const PreviousVisa := VisaHistoryEntry("2", "F-1", "Expired", "2020-08-20", "2022-01-14",
    Some("Previous student visa - " + "transitioned to work authorization"))

  /** The visa-history rows: the current visa, taken from the case, then a fixed earlier one. */
  function VisaHistory(c: VisaCase): (h: seq<VisaHistoryEntry>)
    ensures |h| == 2
    ensures h[0].visaType == c.visaType && h[0].status == c.status && h[0].expirationDate == c.expirationDate
    ensures h[1] == PreviousVisa
  {
    [VisaHistoryEntry("1", c.visaType, c.status, "2022-01-15", c.expirationDate, Some("Current active visa")),
     PreviousVisa]
  }

  /** Cases that agree on visa type, status and expiration show the same history. */
  lemma VisaHistoryDependsOnCurrentVisa(c: VisaCase, d: VisaCase)
    requires c.visaType == d.visaType && c.status == d.status && c.expirationDate == d.expirationDate
    ensures VisaHistory(c) == VisaHistory(d)
  {
  }
}
