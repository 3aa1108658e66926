/** The problem-status lifecycle. The backend guards none of its transitions:
    each event sets the status whatever it was before. */
module Lifecycle {
  import opened Models

  /** The two outcomes an admin may set through a status update. */
  datatype Verdict = Completed | Refused

  function VerdictStatus(v: Verdict): Status
  {
    match v
    case Completed => Done
    case Refused => Rejected
  }

  /** Creation, assignment to an admin, an admin's status update, and the
      creation of a service record. */
  datatype Event = Submitted | Assigned | Decided(verdict: Verdict) | Serviced

  /** The status after an event. Only creation yields "В обробці", only
      assignment yields "в роботі", and an admin decision or a service record
      yields one of the two final statuses. */
  function Step(s: Status, e: Event): (t: Status)
    ensures t == Pending <==> e == Submitted
    ensures t == InWork <==> e == Assigned
    ensures e.Decided? ==> t == Done || t == Rejected
    ensures e == Serviced ==> t == Done
  {
    match e
    case Submitted => Pending
    case Assigned => InWork
    case Decided(v) => VerdictStatus(v)
    case Serviced => Done
  }

  /** The status after a sequence of events. */
  function Run(s: Status, events: seq<Event>): Status
    decreases |events|
  {
    if events == [] then s else Run(Step(s, events[0]), events[1..])
  }

  /** With no guards, the status is decided by the last event alone. */
  lemma {:induction false} RunIsLastStep(s: Status, events: seq<Event>)
    requires events != []
    ensures Run(s, events) == Step(s, events[|events| - 1])
    decreases |events|
  {
    if |events| > 1 {
      RunIsLastStep(Step(s, events[0]), events[1..]);
    }
  }

  /** Once a problem has seen any event after creation, it never returns to
      "В обробці". */
  lemma NeverBackToPending(s: Status, events: seq<Event>)
    requires events != []
    requires forall i :: 0 <= i < |events| ==> events[i] != Submitted
    ensures Run(s, events) != Pending
  {
    RunIsLastStep(s, events);
  }
}
