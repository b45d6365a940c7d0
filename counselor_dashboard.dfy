/**
  * The counselor's dashboard (src/components/Dashboard/CounselorDashboard.tsx):
  * accepting, rejecting and completing appointment requests, saving session
  * notes, which actions each status offers, and the request counts.
  *
  * The current time is supplied by the caller; the notes text, which the page
  * reads from the DOM, is a parameter.
  */
module CounselorDashboard {
  import opened Seqs

  datatype Status = Pending | Confirmed | Completed | Cancelled | NoShow

  datatype Action = Accept | Reject | Complete | Cancel

  /** An appointment request; the student details other than the name and the concerns list are left out. */
  datatype Appointment = Appointment(
    id: string,
    studentName: string,
    date: string,
    time: string,
    status: Status,
    sessionNotes: Option<string>,
    confirmedAt: Option<string>,
    completedAt: Option<string>,
    priority: string)

  /** The status an action leads to. */
  function ActionStatus(action: Action): (s: Status)
    ensures action == Accept <==> s == Confirmed
    ensures action == Complete <==> s == Completed
    ensures action == Reject || action == Cancel <==> s == Cancelled
  {
    match action
    case Accept => Confirmed
    case Reject => Cancelled
    case Complete => Completed
    case Cancel => Cancelled
  }

  /** One appointment after an action at time `now`: the new status, with the matching timestamp set. */
  function ApplyAction(apt: Appointment, action: Action, now: string): (r: Appointment)
    ensures r.status == ActionStatus(action)
    ensures r.confirmedAt == if action == Accept then Some(now) else apt.confirmedAt
    ensures r.completedAt == if action == Complete then Some(now) else apt.completedAt
    ensures r.(status := apt.status, confirmedAt := apt.confirmedAt, completedAt := apt.completedAt) == apt
  {
    apt.(
      status := ActionStatus(action),
      confirmedAt := if action == Accept then Some(now) else apt.confirmedAt,
      completedAt := if action == Complete then Some(now) else apt.completedAt)
  }

  /** `handleAppointmentAction`: the action applied to the appointments with that id, every other entry kept in place. */
  function ActionById(apts: seq<Appointment>, id: string, action: Action, now: string): (r: seq<Appointment>)
    ensures |r| == |apts|
    ensures forall i :: 0 <= i < |apts| ==> r[i] == if apts[i].id == id then ApplyAction(apts[i], action, now) else apts[i]
  {
    if apts == [] then []
    else [if apts[0].id == id then ApplyAction(apts[0], action, now) else apts[0]] + ActionById(apts[1..], id, action, now)
  }

  /** `handleSessionNotes` on the list: the notes set on the appointments with that id only. */
  function NotesById(apts: seq<Appointment>, id: string, notes: string): (r: seq<Appointment>)
    ensures |r| == |apts|
    ensures forall i :: 0 <= i < |apts| ==> r[i] == if apts[i].id == id then apts[i].(sessionNotes := Some(notes)) else apts[i]
  {
    if apts == [] then []
    else [if apts[0].id == id then apts[0].(sessionNotes := Some(notes)) else apts[0]] + NotesById(apts[1..], id, notes)
  }

  /** The action buttons a status shows: Accept and Reject while pending, Complete once confirmed. */
  function ActionsOffered(status: Status): (actions: seq<Action>)
    ensures Accept in actions <==> status == Pending
    ensures Reject in actions <==> status == Pending
    ensures Complete in actions <==> status == Confirmed
    ensures Cancel !in actions
  {
    match status
    case Pending => [Accept, Reject]
    case Confirmed => [Complete]
    case _ => []
  }

  /** "Add Notes" is shown on completed appointments only. */
  predicate NotesOffered(status: Status): (r: bool)
    ensures r ==> ActionsOffered(status) == []
  {
    status == Completed
  }

  /** The only transitions the buttons can make: pending to confirmed or cancelled, and confirmed to completed. */
  lemma ReachableTransitions(status: Status, action: Action)
    requires action in ActionsOffered(status)
    ensures (status, ActionStatus(action)) in {(Pending, Confirmed), (Pending, Cancelled), (Confirmed, Completed)}
  {
  }

  /** Completed, cancelled and no-show appointments offer no further status change. */
  lemma FinalStatuses(status: Status)
    requires status in {Completed, Cancelled, NoShow}
    ensures ActionsOffered(status) == []
  {
  }

  predicate IsPending(a: Appointment) {
    a.status == Pending
  }

  predicate IsConfirmed(a: Appointment) {
    a.status == Confirmed
  }

  /** The "Pending" badge: the number of pending appointments. */
  function PendingCount(apts: seq<Appointment>): (n: nat)
    ensures n == |Filter(apts, IsPending)|
  {
    FilterLength(apts, IsPending);
    CountWhere(apts, IsPending)
  }

  /** No two appointments share an id. */
  predicate DistinctIds(apts: seq<Appointment>) {
    forall i, j :: 0 <= i < j < |apts| ==> apts[i].id != apts[j].id
  }

  lemma {:induction false} ActionOnAbsentId(apts: seq<Appointment>, id: string, action: Action, now: string)
    requires forall i :: 0 <= i < |apts| ==> apts[i].id != id
    ensures ActionById(apts, id, action, now) == apts
  {
  }

  /** Accepting a pending request moves exactly one appointment from the pending count to the confirmed count. */
  lemma {:induction false} AcceptMovesOne(apts: seq<Appointment>, id: string, k: nat, now: string)
    requires DistinctIds(apts) && k < |apts| && apts[k].id == id && apts[k].status == Pending
    ensures var r := ActionById(apts, id, Accept, now);
            CountWhere(r, IsPending) == CountWhere(apts, IsPending) - 1 &&
            CountWhere(r, IsConfirmed) == CountWhere(apts, IsConfirmed) + 1
  {
    var r := ActionById(apts, id, Accept, now);
    assert r[1..] == ActionById(apts[1..], id, Accept, now);
    if k == 0 {
      assert IsConfirmed(r[0]) && !IsPending(r[0]);
      ActionOnAbsentId(apts[1..], id, Accept, now);
    } else {
      assert r[0] == apts[0];
      AcceptMovesOne(apts[1..], id, k - 1, now);
    }
  }

  /** `getStatusInfo` without the icon: the text colour and background of a status, gray for anything else. */
  function StatusStyle(status: string): (style: (string, string))
    ensures status !in ["pending", "confirmed", "completed", "cancelled", "no-show"] <==> style == ("text-gray-600", "bg-gray-50")
    ensures status == "pending" ==> style == ("text-yellow-600", "bg-yellow-50")
    ensures status == "confirmed" ==> style == ("text-blue-600", "bg-blue-50")
    ensures status == "completed" ==> style == ("text-green-600", "bg-green-50")
    ensures status == "cancelled" ==> style == ("text-red-600", "bg-red-50")
    ensures status == "no-show" ==> style == ("text-orange-600", "bg-orange-50")
  {
    match status
    case "pending" => ("text-yellow-600", "bg-yellow-50")
    case "confirmed" => ("text-blue-600", "bg-blue-50")
    case "completed" => ("text-green-600", "bg-green-50")
    case "cancelled" => ("text-red-600", "bg-red-50")
    case "no-show" => ("text-orange-600", "bg-orange-50")
    case _ => ("text-gray-600", "bg-gray-50")
  }

  /** `getPriorityColor`: red, yellow and green for high, medium and low, gray for anything else. */
  function PriorityColor(priority: string): (color: string)
    ensures priority !in ["high", "medium", "low"] <==> color == "text-gray-600 bg-gray-50"
    ensures priority == "high" ==> color == "text-red-600 bg-red-50"
    ensures priority == "medium" ==> color == "text-yellow-600 bg-yellow-50"
    ensures priority == "low" ==> color == "text-green-600 bg-green-50"
  {
    match priority
    case "high" => "text-red-600 bg-red-50"
    case "medium" => "text-yellow-600 bg-yellow-50"
    case "low" => "text-green-600 bg-green-50"
    case _ => "text-gray-600 bg-gray-50"
  }

  /** The dashboard's appointment list and its session-notes form. */
  class Dashboard {
    var appointments: seq<Appointment>
    var showSessionNotesModal: bool
    var selectedAppointment: Option<Appointment>

    constructor(appointments: seq<Appointment>)
      ensures this.appointments == appointments
      ensures !showSessionNotesModal && selectedAppointment.None?
    {
      this.appointments := appointments;
      showSessionNotesModal := false;
      selectedAppointment := None;
    }

    /** `handleAppointmentAction`. */
    method AppointmentAction(id: string, action: Action, now: string)
      modifies this
      ensures appointments == ActionById(old(appointments), id, action, now)
      ensures showSessionNotesModal == old(showSessionNotesModal) && selectedAppointment == old(selectedAppointment)
    {
      appointments := ActionById(appointments, id, action, now);
    }

    /** "Add Notes": selects the appointment and opens the notes form. */
    method OpenNotes(apt: Appointment)
      modifies this
      ensures selectedAppointment == Some(apt) && showSessionNotesModal
      ensures appointments == old(appointments)
    {
      selectedAppointment := Some(apt);
      showSessionNotesModal := true;
    }

    /** `handleSessionNotes`: stores the notes, closes the form and clears the selection. */
    method SaveNotes(id: string, notes: string)
      modifies this
      ensures appointments == NotesById(old(appointments), id, notes)
      ensures !showSessionNotesModal && selectedAppointment.None?
    {
      appointments := NotesById(appointments, id, notes);
      showSessionNotesModal := false;
      selectedAppointment := None;
    }

    /** The form's Cancel button: closes the form and keeps the selection. */
    method CloseNotes()
      modifies this
      ensures !showSessionNotesModal
      ensures appointments == old(appointments) && selectedAppointment == old(selectedAppointment)
    {
      showSessionNotesModal := false;
    }
  }
}
