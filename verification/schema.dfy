/** The six record kinds, their insert shapes, the column defaults and the
    request-body validation the insert schemas perform. */
module Schema {
  import opened Wrappers

  /** Record ids are opaque strings minted by the store. */
  type Id = string

  /** A timestamp, in milliseconds; used only for ordering. */
  type Time = int

  /** A tournament status. The column is free text documented as one of
      `upcoming`, `live`, `completed`; any other text is kept as `Other`. */
  datatype Status = Upcoming | Live | Completed | Other(text: string)

  const Reserved: set<string> := {"upcoming", "live", "completed"}

  /** Every status text has exactly one representation: `Other` never holds
      one of the three documented words. */
  type StatusValue = st: Status | st.Other? ==> st.text !in Reserved witness Upcoming

  /** The text stored in the status column. */
  function StatusText(st: StatusValue): string {
    match st
    case Upcoming => "upcoming"
    case Live => "live"
    case Completed => "completed"
    case Other(t) => t
  }

  /** Reads a status column. */
  function ParseStatus(s: string): StatusValue {
    if s == "upcoming" then Upcoming
    else if s == "live" then Live
    else if s == "completed" then Completed
    else Other(s)
  }

  /** Reading back the stored text gives the status that was stored. */
  lemma ParseStatusText(st: StatusValue)
    ensures ParseStatus(StatusText(st)) == st
  {
  }

  /** Storing a parsed status reproduces the text that was read. */
  lemma StatusTextParse(s: string)
    ensures StatusText(ParseStatus(s)) == s
  {
  }

  /** Comparing statuses is comparing their column texts. */
  lemma StatusEqualityIsTextEquality(a: StatusValue, b: StatusValue)
    ensures a == b <==> StatusText(a) == StatusText(b)
  {
    ParseStatusText(a);
    ParseStatusText(b);
  }

  datatype User = User(id: Id, username: string, password: string)

  datatype Tournament = Tournament(
    id: Id,
    name: string,
    description: string,
    prizePool: int,
    maxPlayers: int,
    currentPlayers: int,
    format: string,
    status: StatusValue,
    startDate: Time,
    endDate: Option<Time>,
    eligibilityMinLevel: int,
    eligibilityMaxLevel: Option<int>,
    createdAt: Time)

  predicate IsLive(t: Tournament) { t.status == Live }
  predicate IsUpcoming(t: Tournament) { t.status == Upcoming }
  predicate IsCompleted(t: Tournament) { t.status == Completed }

  /** The status test every registration path applies: `upcoming` or `live`. */
  predicate AcceptsRegistrations(t: Tournament) { t.status == Upcoming || t.status == Live }

  /** The capacity test: no place is left, that is one more player would
      take the count past the maximum. */
  function IsFull(t: Tournament): (r: bool)
    ensures !r <==> t.currentPlayers + 1 <= t.maxPlayers
  {
    t.currentPlayers >= t.maxPlayers
  }

  datatype Registration = Registration(
    id: Id,
    tournamentId: Id,
    playerName: string,
    email: string,
    age: int,
    freeFireId: string,
    hasParentalConsent: bool,
    createdAt: Time)

  datatype BlogPost = BlogPost(
    id: Id,
    title: string,
    content: string,
    excerpt: string,
    category: string,
    author: string,
    imageUrl: Option<string>,
    views: int,
    readTime: string,
    createdAt: Time,
    updatedAt: Time)

  datatype Contact = Contact(
    id: Id,
    name: string,
    email: string,
    subject: string,
    message: string,
    status: string,
    createdAt: Time)

  datatype Newsletter = Newsletter(id: Id, email: string, isActive: bool, createdAt: Time)

  /* Column defaults. */
  const DefaultCurrentPlayers := 0
  const DefaultParentalConsent := false
  const DefaultViews := 0
  const DefaultContactStatus := "pending"
  const DefaultNewsletterActive := true

  /* Insert shapes: the record without the fields the store mints (`id`,
     `createdAt`, and per kind `updatedAt`/`views`, `status`, `isActive`).
     A column with a default may be left out (`Option`). */
  datatype InsertUser = InsertUser(username: string, password: string)

  datatype InsertTournament = InsertTournament(
    name: string,
    description: string,
    prizePool: int,
    maxPlayers: int,
    currentPlayers: Option<int>,
    format: string,
    status: StatusValue,
    startDate: Time,
    endDate: Option<Time>,
    eligibilityMinLevel: int,
    eligibilityMaxLevel: Option<int>)

  datatype InsertRegistration = InsertRegistration(
    tournamentId: Id,
    playerName: string,
    email: string,
    age: int,
    freeFireId: string,
    hasParentalConsent: Option<bool>)

  datatype InsertBlogPost = InsertBlogPost(
    title: string,
    content: string,
    excerpt: string,
    category: string,
    author: string,
    imageUrl: Option<string>,
    readTime: string)

  datatype InsertContact = InsertContact(name: string, email: string, subject: string, message: string)

  datatype InsertNewsletter = InsertNewsletter(email: string)

  /** `Partial<Tournament>`: each present field overrides the stored one. */
  datatype TournamentPatch = TournamentPatch(
    id: Option<Id>,
    name: Option<string>,
    description: Option<string>,
    prizePool: Option<int>,
    maxPlayers: Option<int>,
    currentPlayers: Option<int>,
    format: Option<string>,
    status: Option<StatusValue>,
    startDate: Option<Time>,
    endDate: Option<Option<Time>>,
    eligibilityMinLevel: Option<int>,
    eligibilityMaxLevel: Option<Option<int>>,
    createdAt: Option<Time>)

  /* Request bodies. A required field is `None` when it is missing or not of
     the declared type; unknown keys (such as the form's `terms`) are dropped. */

  /** A body field that may be left out: absent, of the declared type, or of
      another type (such as `null` or a string where a boolean is declared). */
  datatype Optional<T> = Absent | Present(value: T) | Malformed
  datatype RegistrationBody = RegistrationBody(
    tournamentId: Option<string>,
    playerName: Option<string>,
    email: Option<string>,
    age: Option<int>,
    freeFireId: Option<string>,
    hasParentalConsent: Optional<bool>)

  datatype ContactBody = ContactBody(
    name: Option<string>,
    email: Option<string>,
    subject: Option<string>,
    message: Option<string>)

  datatype NewsletterBody = NewsletterBody(email: Option<string>)

  /** The email refinement of the insert schemas, left uninterpreted. */
  type EmailCheck = string -> bool

  const MinAge := 10
  const MaxAge := 18

  /** The refinements of the registration insert schema. */
  predicate ValidRegistration(ins: InsertRegistration, emailOk: EmailCheck) {
    MinAge <= ins.age <= MaxAge && emailOk(ins.email)
  }

  /** The body a client sends for an insert. */
  function RegistrationBodyOf(ins: InsertRegistration): RegistrationBody {
    RegistrationBody(Some(ins.tournamentId), Some(ins.playerName), Some(ins.email),
                     Some(ins.age), Some(ins.freeFireId),
                     if ins.hasParentalConsent.Some? then Present(ins.hasParentalConsent.value) else Absent)
  }

  function ContactBodyOf(ins: InsertContact): ContactBody {
    ContactBody(Some(ins.name), Some(ins.email), Some(ins.subject), Some(ins.message))
  }

  function NewsletterBodyOf(ins: InsertNewsletter): NewsletterBody {
    NewsletterBody(Some(ins.email))
  }

  /** `insertRegistrationSchema.parse`: accepts exactly the bodies of valid inserts. */
  function ParseRegistration(b: RegistrationBody, emailOk: EmailCheck): (r: Option<InsertRegistration>)
    ensures r.Some? ==> ValidRegistration(r.value, emailOk) && RegistrationBodyOf(r.value) == b
    ensures r.None? ==> forall ins :: RegistrationBodyOf(ins) == b ==> !ValidRegistration(ins, emailOk)
  {
    if b.tournamentId.None? || b.playerName.None? || b.email.None? || b.age.None? || b.freeFireId.None?
       || b.hasParentalConsent.Malformed? then None
    else
      var consent := if b.hasParentalConsent.Present? then Some(b.hasParentalConsent.value) else None;
      var ins := InsertRegistration(b.tournamentId.value, b.playerName.value, b.email.value,
                                    b.age.value, b.freeFireId.value, consent);
      if ValidRegistration(ins, emailOk) then Some(ins) else None
  }

  /** `insertContactSchema.parse`: every field must be a string; no further refinement. */
  function ParseContact(b: ContactBody): (r: Option<InsertContact>)
    ensures r.Some? ==> ContactBodyOf(r.value) == b
    ensures r.None? ==> forall ins :: ContactBodyOf(ins) != b
  {
    if b.name.None? || b.email.None? || b.subject.None? || b.message.None? then None
    else Some(InsertContact(b.name.value, b.email.value, b.subject.value, b.message.value))
  }

  /** `insertNewsletterSchema.parse`: the email must be present and pass the email check. */
  function ParseNewsletter(b: NewsletterBody, emailOk: EmailCheck): (r: Option<InsertNewsletter>)
    ensures r.Some? ==> emailOk(r.value.email) && NewsletterBodyOf(r.value) == b
    ensures r.None? ==> forall ins :: NewsletterBodyOf(ins) == b ==> !emailOk(ins.email)
  {
    if b.email.Some? && emailOk(b.email.value) then Some(InsertNewsletter(b.email.value)) else None
  }

  /** Sending an insert and parsing it back gives the insert exactly when it is valid. */
  lemma RegistrationRoundTrip(ins: InsertRegistration, emailOk: EmailCheck)
    ensures ParseRegistration(RegistrationBodyOf(ins), emailOk)
         == if ValidRegistration(ins, emailOk) then Some(ins) else None
  {
  }

  /** The consent flag may be left out or be a boolean; any other value is
      rejected, and a left-out flag parses to an insert without one. */
  lemma ConsentFieldRules(b: RegistrationBody, emailOk: EmailCheck)
    ensures b.hasParentalConsent.Malformed? ==> ParseRegistration(b, emailOk).None?
    ensures ParseRegistration(b, emailOk).Some? ==>
              (ParseRegistration(b, emailOk).value.hasParentalConsent.None? <==> b.hasParentalConsent.Absent?)
  {
  }

  /** An age outside 10..18 is rejected whatever the other fields hold. */
  lemma AgeOutOfRangeRejected(b: RegistrationBody, emailOk: EmailCheck)
    requires b.age.Some? && (b.age.value < MinAge || b.age.value > MaxAge)
    ensures ParseRegistration(b, emailOk).None?
  {
  }

  /** An email failing the check is rejected, for registrations and newsletters alike. */
  lemma BadEmailRejected(rb: RegistrationBody, nb: NewsletterBody, emailOk: EmailCheck)
    requires rb.email.Some? && !emailOk(rb.email.value)
    requires nb.email.Some? && !emailOk(nb.email.value)
    ensures ParseRegistration(rb, emailOk).None?
    ensures ParseNewsletter(nb, emailOk).None?
  {
  }
}
