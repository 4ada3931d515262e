/** The registration form: its defaults, its client-side schema (the server's
    insert schema plus the terms checkbox), the payload it posts and the
    tournaments it offers. */
module RegistrationForm {
  import opened Wrappers
  import opened Seqs
  import opened Schema
  import opened Storage
  import opened Routes
  import TournamentsPage

  /** The form's values: the insert fields plus the `terms` checkbox. */
  datatype FormData = FormData(
    tournamentId: Id,
    playerName: string,
    email: string,
    age: int,
    freeFireId: string,
    hasParentalConsent: bool,
    terms: bool)

  const DefaultAge := 15

  /** The values the form starts from (and is reset to after a success);
      a missing or empty preselection leaves the tournament unchosen. */
  function DefaultForm(selected: Option<Id>): (r: FormData)
    ensures r.tournamentId == selected.GetOr("")
    ensures r.playerName == "" && r.email == "" && r.freeFireId == ""
    ensures r.age == DefaultAge && !r.hasParentalConsent && !r.terms
  {
    FormData(selected.GetOr(""), "", "", DefaultAge, "", false, false)
  }

  /** The insert part of the form, without `terms`. */
  function InsertOf(fd: FormData): InsertRegistration {
    InsertRegistration(fd.tournamentId, fd.playerName, fd.email, fd.age, fd.freeFireId, Some(fd.hasParentalConsent))
  }

  /** The client-side schema: the server's refinements, and the terms must be accepted. */
  predicate FormValid(fd: FormData, emailOk: EmailCheck) {
    ValidRegistration(InsertOf(fd), emailOk) && fd.terms
  }

  /** What is posted: every insert field present, `terms` stripped. */
  function Payload(fd: FormData): (r: RegistrationBody)
    ensures r.tournamentId == Some(fd.tournamentId) && r.playerName == Some(fd.playerName)
    ensures r.email == Some(fd.email) && r.age == Some(fd.age) && r.freeFireId == Some(fd.freeFireId)
    ensures r.hasParentalConsent == Present(fd.hasParentalConsent)
  {
    RegistrationBodyOf(InsertOf(fd))
  }

  /** Submitting posts only a form that passes the client schema. */
  function Submit(fd: FormData, emailOk: EmailCheck): (r: Option<RegistrationBody>)
    ensures r.Some? <==> FormValid(fd, emailOk)
    ensures r.Some? ==> r.value == Payload(fd)
  {
    if FormValid(fd, emailOk) then Some(Payload(fd)) else None
  }

  /** The default form cannot be submitted as it stands (the terms are
      unticked), although its default age is one the server accepts. */
  lemma DefaultsCannotSubmit(selected: Option<Id>, emailOk: EmailCheck)
    ensures Submit(DefaultForm(selected), emailOk).None?
    ensures MinAge <= DefaultForm(selected).age <= MaxAge
  {
  }

  /** The server parses the posted payload back into the form's insert part,
      and accepts it exactly when the client's insert-schema part holds; so
      a form the client submits never meets the server's 400 for its shape. */
  lemma PayloadParses(fd: FormData, emailOk: EmailCheck)
    ensures ParseRegistration(Payload(fd), emailOk).Some? <==> ValidRegistration(InsertOf(fd), emailOk)
    ensures ParseRegistration(Payload(fd), emailOk).Some? ==> ParseRegistration(Payload(fd), emailOk).value == InsertOf(fd)
    ensures Submit(fd, emailOk).Some? ==> ParseRegistration(Submit(fd, emailOk).value, emailOk).Some?
  {
    RegistrationRoundTrip(InsertOf(fd), emailOk);
  }

  /** End to end: a submitted form naming a stored tournament that has room
      and is open is answered 201 and adds one player to that tournament. */
  lemma SubmittedFormRegisters(s: Store, fd: FormData, emailOk: EmailCheck, newId: Id, now: Time)
    requires KeysMatch(s) && newId !in s.registrations.rows
    requires Submit(fd, emailOk).Some?
    requires Admits(s, InsertOf(fd))
    ensures var r := PostRegistration(s, Submit(fd, emailOk).value, emailOk, newId, now);
            && r.1.code == Created
            && fd.tournamentId in r.0.tournaments.rows
            && r.0.tournaments.rows[fd.tournamentId].currentPlayers
               == s.tournaments.rows[fd.tournamentId].currentPlayers + 1
  {
    PayloadParses(fd, emailOk);
    AcceptedRegistration(s, Submit(fd, emailOk).value, emailOk, newId, now);
  }

  /** The tournaments the form's select offers: those taking registrations,
      the same list the tournaments page shows as upcoming. */
  function AvailableTournaments(ts: seq<Tournament>): (r: seq<Tournament>)
    ensures Selects(r, ts, AcceptsRegistrations)
    ensures r == TournamentsPage.UpcomingTournaments(ts)
  {
    Filter(ts, AcceptsRegistrations)
  }
}
