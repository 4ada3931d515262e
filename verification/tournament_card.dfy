/** The tournament card: the status badge and the one button it shows. */
module TournamentCard {
  import opened Wrappers
  import opened Text
  import opened Schema
  import opened Storage
  import opened Routes

  /** The badge text: the three documented statuses have fixed labels, any
      other status is shown upper-cased. */
  function StatusLabel(st: StatusValue): (r: string)
    ensures r == Upper(StatusText(st))
  {
    match st
    case Live => assert Upper("live") == "LIVE"; "LIVE"
    case Upcoming => assert Upper("upcoming") == "UPCOMING"; "UPCOMING"
    case Completed => assert Upper("completed") == "COMPLETED"; "COMPLETED"
    case Other(t) => Upper(t)
  }

  /** The card's `canRegister`: the status text is "upcoming" or "live",
      the very test the registration route applies. */
  function CanRegister(t: Tournament): (r: bool)
    ensures r <==> StatusText(t.status) == "upcoming" || StatusText(t.status) == "live"
    ensures r <==> AcceptsRegistrations(t)
  {
    StatusEqualityIsTextEquality(t.status, Upcoming);
    StatusEqualityIsTextEquality(t.status, Live);
    AcceptsRegistrations(t)
  }

  /** The three buttons a card can show. */
  datatype CardButton = Register(caption: string) | Full | Closed

  /** A register button while open and not full; otherwise "Tournament Full"
      when full, whatever the status; otherwise "Registration Closed". */
  function ButtonFor(t: Tournament): (b: CardButton)
    ensures b.Register? <==> CanRegister(t) && !IsFull(t)
    ensures b.Full? <==> IsFull(t)
    ensures b.Closed? <==> !CanRegister(t) && !IsFull(t)
    ensures b.Register? ==> (b.caption == "Join Now" <==> t.status == Live)
    ensures b.Register? && t.status != Live ==> b.caption == "Register"
  {
    if CanRegister(t) && !IsFull(t) then Register(if t.status == Live then "Join Now" else "Register")
    else if IsFull(t) then Full
    else Closed
  }

  /** For a stored tournament, the card offers registration exactly when the
      server would accept a well-formed registration for it. */
  lemma RegisterShownIffServerAccepts(s: Store, b: RegistrationBody, emailOk: EmailCheck, newId: Id, now: Time)
    requires newId !in s.registrations.rows
    requires ParseRegistration(b, emailOk).Some?
    requires b.tournamentId.value in s.tournaments.rows
    ensures ButtonFor(s.tournaments.rows[b.tournamentId.value]).Register?
            <==> PostRegistration(s, b, emailOk, newId, now).1.code == Created
  {
  }

  /** A card showing "Tournament Full" stands for a request the server refuses
      as full; one showing "Registration Closed" for one it refuses as closed. */
  lemma DisabledButtonsMatchServerMessages(s: Store, b: RegistrationBody, emailOk: EmailCheck, newId: Id, now: Time)
    requires newId !in s.registrations.rows
    requires ParseRegistration(b, emailOk).Some?
    requires b.tournamentId.value in s.tournaments.rows
    ensures ButtonFor(s.tournaments.rows[b.tournamentId.value]).Full? ==>
              PostRegistration(s, b, emailOk, newId, now).1 == Reply(BadRequest, Message("Tournament is full"))
    ensures ButtonFor(s.tournaments.rows[b.tournamentId.value]).Closed? ==>
              PostRegistration(s, b, emailOk, newId, now).1 == Reply(BadRequest, Message("Registration is closed for this tournament"))
  {
  }
}
