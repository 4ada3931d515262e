/** The in-memory record store: six tables keyed by id, and pure transition
    functions for each store operation. Fresh ids and the current time are
    parameters; a fresh id is never already a key of its table. */
module Storage {
  import opened Wrappers
  import opened Schema
  import opened Tables
  import opened Seqs

  datatype Store = Store(
    users: Table<Id, User>,
    tournaments: Table<Id, Tournament>,
    registrations: Table<Id, Registration>,
    blogPosts: Table<Id, BlogPost>,
    contacts: Table<Id, Contact>,
    newsletters: Table<Id, Newsletter>)

  /** Every table's insertion order lists each of its keys once. */
  ghost predicate Valid(s: Store) {
    && s.users.Valid()
    && s.tournaments.Valid()
    && s.registrations.Valid()
    && s.blogPosts.Valid()
    && s.contacts.Valid()
    && s.newsletters.Valid()
  }

  /** Every tournament is stored under its own `id`. */
  ghost predicate KeysMatch(s: Store) {
    forall k :: k in s.tournaments.rows ==> s.tournaments.rows[k].id == k
  }

  predicate WithinCapacity(t: Tournament) {
    t.currentPlayers <= t.maxPlayers
  }

  /** The capacity invariant: no tournament holds more players than it admits. */
  ghost predicate CapacityOk(s: Store) {
    forall k :: k in s.tournaments.rows ==> WithinCapacity(s.tournaments.rows[k])
  }

  function EmptyStore(): (s: Store)
    ensures Valid(s) && KeysMatch(s) && CapacityOk(s)
  {
    Store(Empty(), Empty(), Empty(), Empty(), Empty(), Empty())
  }

  // ---------------------------------------------------------------- users

  function GetUser(s: Store, id: Id): (r: Option<User>)
    ensures r.Some? <==> id in s.users.rows
    ensures r.Some? ==> r.value == s.users.rows[id]
  {
    s.users.Get(id)
  }

  /** The first user, in insertion order, with the given username. */
  function GetUserByUsername(s: Store, username: string): (r: Option<User>)
    requires s.users.Valid()
    ensures r.Some? ==> r.value.username == username && r.value in s.users.rows.Values
    ensures r.Some? ==> exists i :: 0 <= i < |s.users.Values()| && s.users.Values()[i] == r.value
                                    && forall j :: 0 <= j < i ==> s.users.Values()[j].username != username
    ensures r.None? <==> forall k :: k in s.users.rows ==> s.users.rows[k].username != username
  {
    ValuesMembers(s.users);
    Find(s.users.Values(), (u: User) => u.username == username)
  }

  function CreateUser(s: Store, ins: InsertUser, newId: Id): (r: (Store, User))
    requires newId !in s.users.rows
    ensures r.1 == User(newId, ins.username, ins.password)
    ensures GetUser(r.0, newId) == Some(r.1)
    ensures forall k :: k != newId ==> GetUser(r.0, k) == GetUser(s, k)
    ensures r.0.(users := s.users) == s
    ensures Valid(s) ==> Valid(r.0)
  {
    var u := User(newId, ins.username, ins.password);
    (s.(users := s.users.Set(newId, u)), u)
  }

  // ---------------------------------------------------------- tournaments

  /** All tournaments, by ascending start date. */
  function GetTournaments(s: Store): (r: seq<Tournament>)
    requires s.tournaments.Valid()
    ensures forall i, j :: 0 <= i < j < |r| ==> r[i].startDate <= r[j].startDate
    ensures multiset(r) == multiset(s.tournaments.Values())
    ensures |r| == |s.tournaments.rows|
    ensures forall t :: t in r <==> t in s.tournaments.rows.Values
  {
    var vs := s.tournaments.Values();
    var r := SortBy(vs, (t: Tournament) => t.startDate);
    PermutationMembers(r, vs);
    assert forall t :: t in vs <==> t in s.tournaments.rows.Values by {
      forall t ensures t in vs <==> t in s.tournaments.rows.Values {
        if t in vs {
          var i :| 0 <= i < |vs| && vs[i] == t;
          assert s.tournaments.rows[s.tournaments.order[i]] == t;
        }
      }
    }
    r
  }

  function GetTournament(s: Store, id: Id): (r: Option<Tournament>)
    ensures r.Some? <==> id in s.tournaments.rows
    ensures r.Some? ==> r.value == s.tournaments.rows[id]
  {
    s.tournaments.Get(id)
  }

  /** The record `createTournament` builds: the insert plus a minted id and
      creation time, with `currentPlayers` defaulting to 0. */
  function NewTournament(ins: InsertTournament, newId: Id, now: Time): (t: Tournament)
    ensures t.id == newId && t.createdAt == now
    ensures t.currentPlayers == ins.currentPlayers.GetOr(DefaultCurrentPlayers)
    ensures ins.currentPlayers.None? ==> t.currentPlayers == 0
    ensures t.name == ins.name && t.description == ins.description && t.format == ins.format
    ensures t.prizePool == ins.prizePool && t.maxPlayers == ins.maxPlayers && t.status == ins.status
    ensures t.startDate == ins.startDate && t.endDate == ins.endDate
    ensures t.eligibilityMinLevel == ins.eligibilityMinLevel && t.eligibilityMaxLevel == ins.eligibilityMaxLevel
  {
    Tournament(newId, ins.name, ins.description, ins.prizePool, ins.maxPlayers,
               ins.currentPlayers.GetOr(DefaultCurrentPlayers), ins.format, ins.status,
               ins.startDate, ins.endDate, ins.eligibilityMinLevel, ins.eligibilityMaxLevel, now)
  }

  function CreateTournament(s: Store, ins: InsertTournament, newId: Id, now: Time): (r: (Store, Tournament))
    requires newId !in s.tournaments.rows
    ensures r.1 == NewTournament(ins, newId, now)
    ensures GetTournament(r.0, newId) == Some(r.1)
    ensures forall k :: k != newId ==> GetTournament(r.0, k) == GetTournament(s, k)
    ensures r.0.(tournaments := s.tournaments) == s
    ensures Valid(s) ==> Valid(r.0)
    ensures KeysMatch(s) ==> KeysMatch(r.0)
    ensures CapacityOk(s) && WithinCapacity(r.1) ==> CapacityOk(r.0)
  {
    var t := NewTournament(ins, newId, now);
    (s.(tournaments := s.tournaments.Set(newId, t)), t)
  }

  /** `{ ...t, ...p }`: each field present in the patch overrides the stored one. */
  function ApplyPatch(t: Tournament, p: TournamentPatch): (r: Tournament)
    ensures r.id == p.id.GetOr(t.id)
    ensures r.name == p.name.GetOr(t.name)
    ensures r.description == p.description.GetOr(t.description)
    ensures r.prizePool == p.prizePool.GetOr(t.prizePool)
    ensures r.maxPlayers == p.maxPlayers.GetOr(t.maxPlayers)
    ensures r.currentPlayers == p.currentPlayers.GetOr(t.currentPlayers)
    ensures r.format == p.format.GetOr(t.format)
    ensures r.status == p.status.GetOr(t.status)
    ensures r.startDate == p.startDate.GetOr(t.startDate)
    ensures r.endDate == p.endDate.GetOr(t.endDate)
    ensures r.eligibilityMinLevel == p.eligibilityMinLevel.GetOr(t.eligibilityMinLevel)
    ensures r.eligibilityMaxLevel == p.eligibilityMaxLevel.GetOr(t.eligibilityMaxLevel)
    ensures r.createdAt == p.createdAt.GetOr(t.createdAt)
  {
    Tournament(p.id.GetOr(t.id), p.name.GetOr(t.name), p.description.GetOr(t.description),
               p.prizePool.GetOr(t.prizePool), p.maxPlayers.GetOr(t.maxPlayers),
               p.currentPlayers.GetOr(t.currentPlayers), p.format.GetOr(t.format),
               p.status.GetOr(t.status), p.startDate.GetOr(t.startDate), p.endDate.GetOr(t.endDate),
               p.eligibilityMinLevel.GetOr(t.eligibilityMinLevel),
               p.eligibilityMaxLevel.GetOr(t.eligibilityMaxLevel), p.createdAt.GetOr(t.createdAt))
  }

  const NoChanges := TournamentPatch(None, None, None, None, None, None, None, None, None, None, None, None, None)

  /** The empty patch changes nothing, and applying a patch twice is applying it once. */
  lemma PatchLaws(t: Tournament, p: TournamentPatch)
    ensures ApplyPatch(t, NoChanges) == t
    ensures ApplyPatch(ApplyPatch(t, p), p) == ApplyPatch(t, p)
  {
  }

  /** `updateTournament`: absent for an unknown id (store untouched); otherwise
      the patched record replaces the stored one. No capacity or status check. */
  function UpdateTournament(s: Store, id: Id, p: TournamentPatch): (r: (Store, Option<Tournament>))
    ensures id !in s.tournaments.rows ==> r == (s, None)
    ensures id in s.tournaments.rows ==> r.1 == Some(ApplyPatch(s.tournaments.rows[id], p))
    ensures id in s.tournaments.rows ==> GetTournament(r.0, id) == r.1
    ensures forall k :: k != id ==> GetTournament(r.0, k) == GetTournament(s, k)
    ensures r.0.(tournaments := s.tournaments) == s
    ensures Valid(s) ==> Valid(r.0)
  {
    match s.tournaments.Get(id)
    case None => (s, None)
    case Some(t) =>
      var u := ApplyPatch(t, p);
      (s.(tournaments := s.tournaments.Set(id, u)), Some(u))
  }

  /** A patch that leaves the id alone keeps every tournament under its own id;
      one that renames the record does not. */
  lemma UpdateKeysMatch(s: Store, id: Id, p: TournamentPatch)
    requires KeysMatch(s) && id in s.tournaments.rows
    ensures KeysMatch(UpdateTournament(s, id, p).0) <==> (p.id.None? || p.id == Some(id))
  {
    var s' := UpdateTournament(s, id, p).0;
    assert s'.tournaments.rows[id].id == p.id.GetOr(id);
  }

  /** An update may push a tournament over capacity: nothing checks it. */
  lemma UpdateMayBreakCapacity(s: Store, id: Id)
    requires id in s.tournaments.rows
    ensures !CapacityOk(UpdateTournament(s, id, NoChanges.(currentPlayers := Some(s.tournaments.rows[id].maxPlayers + 1))).0)
  {
    var p := NoChanges.(currentPlayers := Some(s.tournaments.rows[id].maxPlayers + 1));
    var s' := UpdateTournament(s, id, p).0;
    assert !WithinCapacity(s'.tournaments.rows[id]);
  }

  // -------------------------------------------------------- registrations

  /** The registrations among `vs` that reference `tid`, in the order of `vs`. */
  function RegistrationsFor(vs: seq<Registration>, tid: Id): (r: seq<Registration>)
    ensures Selects(r, vs, (x: Registration) => x.tournamentId == tid)
    ensures forall x :: x in r <==> x in vs && x.tournamentId == tid
  {
    Filter(vs, (x: Registration) => x.tournamentId == tid)
  }

  /** `getRegistrations`: a non-empty tournament id selects that tournament's
      registrations; an absent or empty one selects all of them. */
  function GetRegistrations(s: Store, tournamentId: Option<Id>): (r: seq<Registration>)
    requires s.registrations.Valid()
    ensures tournamentId.Some? && tournamentId.value != "" ==>
              && Selects(r, s.registrations.Values(), (x: Registration) => x.tournamentId == tournamentId.value)
              && forall x :: x in r <==> x in s.registrations.rows.Values && x.tournamentId == tournamentId.value
    ensures tournamentId.None? || tournamentId.value == "" ==>
              && r == s.registrations.Values()
              && |r| == |s.registrations.rows|
              && forall x :: x in r <==> x in s.registrations.rows.Values
  {
    var vs := s.registrations.Values();
    ValuesMembers(s.registrations);
    if tournamentId.Some? && tournamentId.value != "" then RegistrationsFor(vs, tournamentId.value)
    else vs
  }

  /** The record `createRegistration` builds: parental consent defaults to false. */
  function NewRegistration(ins: InsertRegistration, newId: Id, now: Time): (g: Registration)
    ensures g.id == newId && g.createdAt == now
    ensures g.hasParentalConsent == ins.hasParentalConsent.GetOr(DefaultParentalConsent)
    ensures ins.hasParentalConsent.None? ==> !g.hasParentalConsent
    ensures g.tournamentId == ins.tournamentId && g.playerName == ins.playerName
    ensures g.email == ins.email && g.age == ins.age && g.freeFireId == ins.freeFireId
  {
    Registration(newId, ins.tournamentId, ins.playerName, ins.email, ins.age, ins.freeFireId,
                 ins.hasParentalConsent.GetOr(DefaultParentalConsent), now)
  }

  /** One more player: every other field is kept. */
  function AddPlayer(t: Tournament): (u: Tournament)
    ensures u.currentPlayers == t.currentPlayers + 1
    ensures u.(currentPlayers := t.currentPlayers) == t
  {
    t.(currentPlayers := t.currentPlayers + 1)
  }

  /** `createRegistration`, with the counter written back under the id the
      registration references (see `CreateRegistrationAsWritten`). */
  function CreateRegistration(s: Store, ins: InsertRegistration, newId: Id, now: Time): (r: (Store, Registration))
    requires newId !in s.registrations.rows
    ensures r.1 == NewRegistration(ins, newId, now)
    ensures r.0.registrations.Get(newId) == Some(r.1)
    ensures forall k :: k != newId ==> r.0.registrations.Get(k) == s.registrations.Get(k)
    ensures |r.0.registrations.rows| == |s.registrations.rows| + 1
    ensures ins.tournamentId in s.tournaments.rows ==>
              && r.0.tournaments.Get(ins.tournamentId) == Some(AddPlayer(s.tournaments.rows[ins.tournamentId]))
              && r.0.tournaments.rows.Keys == s.tournaments.rows.Keys
    ensures forall k :: k != ins.tournamentId ==> r.0.tournaments.Get(k) == s.tournaments.Get(k)
    ensures ins.tournamentId !in s.tournaments.rows ==> r.0.tournaments == s.tournaments
    ensures r.0.(registrations := s.registrations, tournaments := s.tournaments) == s
    ensures Valid(s) ==> Valid(r.0)
    ensures KeysMatch(s) ==> KeysMatch(r.0)
  {
    var g := NewRegistration(ins, newId, now);
    var s1 := s.(registrations := s.registrations.Set(newId, g));
    match s.tournaments.Get(ins.tournamentId)
    case None => (s1, g)
    case Some(t) => (s1.(tournaments := s.tournaments.Set(ins.tournamentId, AddPlayer(t))), g)
  }

  /** `createRegistration` as the source writes it: the bumped record is stored
      under its own `id` field rather than under the id that was looked up. */
  function CreateRegistrationAsWritten(s: Store, ins: InsertRegistration, newId: Id, now: Time): (r: (Store, Registration))
    requires newId !in s.registrations.rows
    ensures r.1 == NewRegistration(ins, newId, now)
    ensures r.0.registrations == CreateRegistration(s, ins, newId, now).0.registrations
    ensures ins.tournamentId in s.tournaments.rows ==>
              var t := s.tournaments.rows[ins.tournamentId];
              && r.0.tournaments.Get(t.id) == Some(AddPlayer(t))
              && (forall k :: k != t.id ==> r.0.tournaments.Get(k) == s.tournaments.Get(k))
    ensures ins.tournamentId !in s.tournaments.rows ==> r.0.tournaments == s.tournaments
    ensures r.0.(registrations := s.registrations, tournaments := s.tournaments) == s
    ensures Valid(s) ==> Valid(r.0)
    ensures CapacityOk(s) && (ins.tournamentId in s.tournaments.rows ==> !IsFull(s.tournaments.rows[ins.tournamentId]))
            ==> CapacityOk(r.0)
  {
    var g := NewRegistration(ins, newId, now);
    var s1 := s.(registrations := s.registrations.Set(newId, g));
    match s.tournaments.Get(ins.tournamentId)
    case None => (s1, g)
    case Some(t) => (s1.(tournaments := s.tournaments.Set(t.id, AddPlayer(t))), g)
  }

  /** While every tournament sits under its own id, the two agree. */
  lemma AsWrittenAgreesWhenKeysMatch(s: Store, ins: InsertRegistration, newId: Id, now: Time)
    requires newId !in s.registrations.rows
    ensures KeysMatch(s) ==> CreateRegistrationAsWritten(s, ins, newId, now) == CreateRegistration(s, ins, newId, now)
  {
  }

  /** A reachable store on which the source's write-back misses: create a
      tournament, rename it through `updateTournament`, then register for it
      by the id it is stored under. Its counter stays 0 and a second entry
      appears under the new name. */
  lemma AsWrittenMissesRenamedTournament()
    ensures var ins := InsertTournament("Cup", "", 0, 2, None, "Solo", Upcoming, 0, None, 15, None);
            var s1 := CreateTournament(EmptyStore(), ins, "t1", 0).0;
            var s2 := UpdateTournament(s1, "t1", NoChanges.(id := Some("t2"))).0;
            var reg := InsertRegistration("t1", "Ana", "ana@example.com", 14, "ff-1", None);
            var asWritten := CreateRegistrationAsWritten(s2, reg, "r1", 0).0;
            var corrected := CreateRegistration(s2, reg, "r1", 0).0;
            && asWritten.tournaments.rows["t1"].currentPlayers == 0
            && "t2" in asWritten.tournaments.rows
            && corrected.tournaments.rows["t1"].currentPlayers == 1
            && "t2" !in corrected.tournaments.rows
  {
    var ins := InsertTournament("Cup", "", 0, 2, None, "Solo", Upcoming, 0, None, 15, None);
    var s1 := CreateTournament(EmptyStore(), ins, "t1", 0).0;
    assert s1.tournaments.rows.Keys == {"t1"};
    var s2 := UpdateTournament(s1, "t1", NoChanges.(id := Some("t2"))).0;
    assert s2.tournaments.rows.Keys == {"t1"};
    assert s2.tournaments.rows["t1"].id == "t2";
    assert s2.tournaments.rows["t1"].currentPlayers == 0;
  }

  // ----------------------------------------------------------- blog posts

  /** All posts, newest first. */
  function GetBlogPosts(s: Store): (r: seq<BlogPost>)
    requires s.blogPosts.Valid()
    ensures forall i, j :: 0 <= i < j < |r| ==> r[i].createdAt >= r[j].createdAt
    ensures multiset(r) == multiset(s.blogPosts.Values())
    ensures |r| == |s.blogPosts.rows|
    ensures forall p :: p in r <==> p in s.blogPosts.rows.Values
  {
    var vs := s.blogPosts.Values();
    var r := SortBy(vs, (p: BlogPost) => -p.createdAt);
    PermutationMembers(r, vs);
    assert forall p :: p in vs <==> p in s.blogPosts.rows.Values by {
      forall p ensures p in vs <==> p in s.blogPosts.rows.Values {
        if p in vs {
          var i :| 0 <= i < |vs| && vs[i] == p;
          assert s.blogPosts.rows[s.blogPosts.order[i]] == p;
        }
      }
    }
    r
  }

  function GetBlogPost(s: Store, id: Id): (r: Option<BlogPost>)
    ensures r.Some? <==> id in s.blogPosts.rows
    ensures r.Some? ==> r.value == s.blogPosts.rows[id]
  {
    s.blogPosts.Get(id)
  }

  /** The record `createBlogPost` builds: no views yet, and an empty or
      missing image URL is stored as null. The clock is read twice, once for
      each time stamp, so the two need not be equal. */
  function NewBlogPost(ins: InsertBlogPost, newId: Id, created: Time, updated: Time): (p: BlogPost)
    ensures p.id == newId && p.createdAt == created && p.updatedAt == updated
    ensures p.views == DefaultViews
    ensures p.imageUrl.Some? ==> p.imageUrl == ins.imageUrl && p.imageUrl.value != ""
    ensures p.imageUrl.None? <==> ins.imageUrl.None? || ins.imageUrl == Some("")
    ensures p.title == ins.title && p.content == ins.content && p.excerpt == ins.excerpt
    ensures p.category == ins.category && p.author == ins.author && p.readTime == ins.readTime
  {
    BlogPost(newId, ins.title, ins.content, ins.excerpt, ins.category, ins.author,
             if ins.imageUrl.Some? && ins.imageUrl.value != "" then ins.imageUrl else None,
             DefaultViews, ins.readTime, created, updated)
  }

  function CreateBlogPost(s: Store, ins: InsertBlogPost, newId: Id, created: Time, updated: Time): (r: (Store, BlogPost))
    requires newId !in s.blogPosts.rows
    ensures r.1 == NewBlogPost(ins, newId, created, updated)
    ensures GetBlogPost(r.0, newId) == Some(r.1)
    ensures forall k :: k != newId ==> GetBlogPost(r.0, k) == GetBlogPost(s, k)
    ensures r.0.(blogPosts := s.blogPosts) == s
    ensures Valid(s) ==> Valid(r.0)
  {
    var p := NewBlogPost(ins, newId, created, updated);
    (s.(blogPosts := s.blogPosts.Set(newId, p)), p)
  }

  /** `incrementPostViews`: one more view on an existing post; nothing otherwise. */
  function IncrementPostViews(s: Store, id: Id): (r: Store)
    ensures id in s.blogPosts.rows ==>
              && GetBlogPost(r, id) == Some(s.blogPosts.rows[id].(views := s.blogPosts.rows[id].views + 1))
              && r.blogPosts.rows.Keys == s.blogPosts.rows.Keys
    ensures id !in s.blogPosts.rows ==> r == s
    ensures forall k :: k != id ==> GetBlogPost(r, k) == GetBlogPost(s, k)
    ensures r.(blogPosts := s.blogPosts) == s
    ensures Valid(s) ==> Valid(r)
  {
    match s.blogPosts.Get(id)
    case None => s
    case Some(p) => s.(blogPosts := s.blogPosts.Set(id, p.(views := p.views + 1)))
  }

  /** Views only ever grow, by exactly one per call on an existing post. */
  lemma {:induction false} ViewsCount(s: Store, id: Id, n: nat)
    requires id in s.blogPosts.rows
    ensures id in IncrementTimes(s, id, n).blogPosts.rows
    ensures IncrementTimes(s, id, n).blogPosts.rows[id].views == s.blogPosts.rows[id].views + n
    ensures IncrementTimes(s, id, n).blogPosts.rows[id].(views := s.blogPosts.rows[id].views) == s.blogPosts.rows[id]
  {
    if n > 0 {
      ViewsCount(s, id, n - 1);
    }
  }

  /** `n` successive calls of `incrementPostViews` on the same id. */
  function IncrementTimes(s: Store, id: Id, n: nat): Store {
    if n == 0 then s else IncrementPostViews(IncrementTimes(s, id, n - 1), id)
  }

  // ------------------------------------------------ contacts, newsletters

  function CreateContact(s: Store, ins: InsertContact, newId: Id, now: Time): (r: (Store, Contact))
    requires newId !in s.contacts.rows
    ensures r.1.id == newId && r.1.createdAt == now && r.1.status == DefaultContactStatus
    ensures r.1.name == ins.name && r.1.email == ins.email && r.1.subject == ins.subject && r.1.message == ins.message
    ensures r.0.contacts.Get(newId) == Some(r.1)
    ensures forall k :: k != newId ==> r.0.contacts.Get(k) == s.contacts.Get(k)
    ensures r.0.(contacts := s.contacts) == s
    ensures Valid(s) ==> Valid(r.0)
  {
    var c := Contact(newId, ins.name, ins.email, ins.subject, ins.message, "pending", now);
    (s.(contacts := s.contacts.Set(newId, c)), c)
  }

  function CreateNewsletterSubscription(s: Store, ins: InsertNewsletter, newId: Id, now: Time): (r: (Store, Newsletter))
    requires newId !in s.newsletters.rows
    ensures r.1.id == newId && r.1.createdAt == now && r.1.isActive == DefaultNewsletterActive
    ensures r.1.email == ins.email
    ensures r.0.newsletters.Get(newId) == Some(r.1)
    ensures forall k :: k != newId ==> r.0.newsletters.Get(k) == s.newsletters.Get(k)
    ensures r.0.(newsletters := s.newsletters) == s
    ensures Valid(s) ==> Valid(r.0)
  {
    var n := Newsletter(newId, ins.email, true, now);
    (s.(newsletters := s.newsletters.Set(newId, n)), n)
  }

  // ---------------------------------------------------------- sample data

  function SampleTournaments(now: Time): seq<Tournament> {
    [ Tournament("tournament-1", "Weekly Clash #12", "Fast-paced 1-hour tournament with instant rewards",
                 2500, 64, 32, "Battle Royale", Live, 1732557600000, Some(1732561200000), 15, None, now),
      Tournament("tournament-2", "Rookie Championship", "Special tournament for new players (Level 15-30)",
                 1000, 32, 12, "Squad Battle", Upcoming, 1733076000000, Some(1733083200000), 15, Some(30), now),
      Tournament("tournament-3", "FireStorm Championship 2024",
                 "The biggest Free Fire tournament of the year! 128 players, 4 weeks of intense battles.",
                 10000, 128, 45, "Mixed Mode", Upcoming, 1733076000000, Some(1734897600000), 15, None, now),
      Tournament("tournament-4", "Holiday Showdown", "Special holiday event with exclusive rewards",
                 5000, 128, 0, "Mixed Mode", Upcoming, 1734285600000, Some(1734300000000), 15, None, now) ]
  }

  /* The long texts of the sample posts. */
  const Post1Title := "Top 10 Pro Strategies to Dominate Free Fire Tournaments"
  const Post1Content := "Learn the advanced tactics that pro players use to consistently win tournaments..."
  const Post1Excerpt := "Learn the advanced tactics that pro players use to consistently win tournaments. From positioning strategies to weapon combinations."
  const Post1Image := "https://images.unsplash.com/photo-1560253023-3ec5d502959f"
  const Post2Title := "New Tournament Format Coming December"
  const Post2Content := "We're introducing an exciting new tournament format that will change how you compete..."
  const Post2Excerpt := "We're introducing an exciting new tournament format that will change how you compete in Free Fire."
  const Post3Title := "Best Character Combinations for Squad Play"
  const Post3Content := "Discover the most effective character synergies for dominating squad matches..."
  const Post3Excerpt := "Discover the most effective character synergies for dominating squad matches in Free Fire tournaments."
  const Post4Title := "5-Minute Guide: Landing Zone Tactics"
  const Post4Content := "Quick tips for choosing the perfect landing spot to maximize your survival chances..."
  const Post4Excerpt := "Quick tips for choosing the perfect landing spot to maximize your survival chances."

  function SamplePosts(): seq<BlogPost> {
    [ BlogPost("post-1", Post1Title,
               Post1Content,
               Post1Excerpt,
               "STRATEGY", "GameMaster_Pro", Some(Post1Image),
               2548, "8 min read", 1732060800000, 1732060800000),
      BlogPost("post-2", Post2Title,
               Post2Content,
               Post2Excerpt,
               "NEWS", "FireStorm Team", None, 1234, "3 min read", 1731888000000, 1731888000000),
      BlogPost("post-3", Post3Title,
               Post3Content,
               Post3Excerpt,
               "TIPS", "Squad_Master", None, 1876, "5 min read", 1731628800000, 1731628800000),
      BlogPost("post-4", Post4Title,
               Post4Content,
               Post4Excerpt,
               "GUIDE", "TacticalGamer", None, 2501, "5 min read", 1731542400000, 1731542400000) ]
  }

  /** The sample tournaments have distinct ids and respect capacity. */
  lemma SampleTournamentFacts(now: Time)
    ensures |SampleTournaments(now)| == 4
    ensures forall i, j :: 0 <= i < j < 4 ==> SampleTournaments(now)[i].id != SampleTournaments(now)[j].id
    ensures forall i :: 0 <= i < 4 ==> WithinCapacity(SampleTournaments(now)[i])
  {
    var ts := SampleTournaments(now);
    assert ts[0].id[11] == '1' && ts[1].id[11] == '2' && ts[2].id[11] == '3' && ts[3].id[11] == '4';
  }

  /** The sample posts have distinct ids. */
  lemma SamplePostFacts()
    ensures |SamplePosts()| == 4
    ensures forall i, j :: 0 <= i < j < 4 ==> SamplePosts()[i].id != SamplePosts()[j].id
  {
    var ps := SamplePosts();
    assert ps[0].id[5] == '1' && ps[1].id[5] == '2' && ps[2].id[5] == '3' && ps[3].id[5] == '4';
  }

  /** The tournaments map after the sample tournaments are set in order. */
  function SampleTournamentTable(now: Time): (tt: Table<Id, Tournament>)
    ensures tt.Valid() && |tt.rows| == 4
    ensures tt.Values() == SampleTournaments(now)
    ensures forall i :: 0 <= i < 4 ==> tt.order[i] == SampleTournaments(now)[i].id
    ensures forall k :: k in tt.rows ==> tt.rows[k].id == k && WithinCapacity(tt.rows[k])
  {
    SampleTournamentFacts(now);
    var tt := FromSeq(SampleTournaments(now), (t: Tournament) => t.id);
    FromSeqValues(SampleTournaments(now), (t: Tournament) => t.id);
    tt
  }

  /** The posts map after the sample posts are set in order. */
  function SamplePostTable(): (pt: Table<Id, BlogPost>)
    ensures pt.Valid() && |pt.rows| == 4
    ensures pt.Values() == SamplePosts()
    ensures forall i :: 0 <= i < 4 ==> pt.order[i] == SamplePosts()[i].id
  {
    SamplePostFacts();
    var pt := FromSeq(SamplePosts(), (p: BlogPost) => p.id);
    FromSeqValues(SamplePosts(), (p: BlogPost) => p.id);
    pt
  }

  /** The store `new MemStorage()` starts from: the four sample tournaments
      and the four sample posts, each table in seeding order under the
      records' own ids, and every other table empty. */
  function InitialStore(now: Time): (s: Store)
    ensures Valid(s)
    ensures |s.tournaments.rows| == 4 && |s.blogPosts.rows| == 4
    ensures s.tournaments == SampleTournamentTable(now) && s.tournaments.Values() == SampleTournaments(now)
    ensures s.blogPosts == SamplePostTable() && s.blogPosts.Values() == SamplePosts()
    ensures s.users == Empty() && s.registrations == Empty()
    ensures s.contacts == Empty() && s.newsletters == Empty()
    ensures KeysMatch(s) && CapacityOk(s)
  {
    var tt := SampleTournamentTable(now);
    var pt := SamplePostTable();
    Store(Empty(), tt, Empty(), pt, Empty(), Empty())
  }
}
