/** The HTTP handlers, each a function from the store and the request to the
    next store and the reply. Server-side faults (500) have no trigger in the
    in-memory store and are not modelled. */
module Routes {
  import opened Wrappers
  import opened Schema
  import opened Storage

  datatype Body =
    | Message(text: string)
    | TournamentJson(tournament: Tournament)
    | TournamentsJson(tournaments: seq<Tournament>)
    | RegistrationJson(registration: Registration)
    | PostJson(post: BlogPost)
    | PostsJson(posts: seq<BlogPost>)
    | CreatedJson(text: string, id: Id)

  datatype Reply = Reply(code: int, body: Body)

  const OK := 200
  const Created := 201
  const BadRequest := 400
  const NotFound := 404

  /** GET /api/tournaments */
  function ListTournaments(s: Store): (r: Reply)
    requires s.tournaments.Valid()
    ensures r.code == OK && r.body.TournamentsJson?
    ensures forall i, j :: 0 <= i < j < |r.body.tournaments| ==>
              r.body.tournaments[i].startDate <= r.body.tournaments[j].startDate
    ensures forall t :: t in r.body.tournaments <==> t in s.tournaments.rows.Values
    ensures multiset(r.body.tournaments) == multiset(s.tournaments.Values())
  {
    Reply(OK, TournamentsJson(GetTournaments(s)))
  }

  /** GET /api/tournaments/:id, which changes nothing. */
  function ShowTournament(s: Store, id: Id): (r: Reply)
    ensures r.code == NotFound <==> id !in s.tournaments.rows
    ensures r.code == OK <==> id in s.tournaments.rows
    ensures r.code == OK ==> r.body == TournamentJson(s.tournaments.rows[id])
  {
    match GetTournament(s, id)
    case None => Reply(NotFound, Message("Tournament not found"))
    case Some(t) => Reply(OK, TournamentJson(t))
  }

  /** Whether POST /api/registrations would accept this insert on this store. */
  predicate Admits(s: Store, ins: InsertRegistration) {
    ins.tournamentId in s.tournaments.rows
    && !IsFull(s.tournaments.rows[ins.tournamentId])
    && AcceptsRegistrations(s.tournaments.rows[ins.tournamentId])
  }

  /** POST /api/registrations: shape, then existence, then capacity, then
      status; only a request passing all four writes anything. */
  function PostRegistration(s: Store, b: RegistrationBody, emailOk: EmailCheck, newId: Id, now: Time): (r: (Store, Reply))
    requires newId !in s.registrations.rows
    ensures ParseRegistration(b, emailOk).None? ==>
              r == (s, Reply(BadRequest, Message("Invalid registration data")))
    ensures ParseRegistration(b, emailOk).Some? && ParseRegistration(b, emailOk).value.tournamentId !in s.tournaments.rows ==>
              r == (s, Reply(NotFound, Message("Tournament not found")))
    ensures ParseRegistration(b, emailOk).Some? && ParseRegistration(b, emailOk).value.tournamentId in s.tournaments.rows
            && IsFull(s.tournaments.rows[ParseRegistration(b, emailOk).value.tournamentId]) ==>
              r == (s, Reply(BadRequest, Message("Tournament is full")))
    ensures ParseRegistration(b, emailOk).Some? && ParseRegistration(b, emailOk).value.tournamentId in s.tournaments.rows
            && !IsFull(s.tournaments.rows[ParseRegistration(b, emailOk).value.tournamentId])
            && !AcceptsRegistrations(s.tournaments.rows[ParseRegistration(b, emailOk).value.tournamentId]) ==>
              r == (s, Reply(BadRequest, Message("Registration is closed for this tournament")))
    ensures r.1.code == Created <==> ParseRegistration(b, emailOk).Some? && Admits(s, ParseRegistration(b, emailOk).value)
    ensures r.1.code != Created ==> r.0 == s
    ensures r.1.code == Created ==>
              var ins := ParseRegistration(b, emailOk).value;
              && r.1.body == RegistrationJson(NewRegistration(ins, newId, now))
              && r.0 == CreateRegistrationAsWritten(s, ins, newId, now).0
    ensures r.1.code == Created && KeysMatch(s) ==>
              r.0 == CreateRegistration(s, ParseRegistration(b, emailOk).value, newId, now).0
    ensures KeysMatch(s) ==> KeysMatch(r.0)
    ensures CapacityOk(s) ==> CapacityOk(r.0)
  {
    match ParseRegistration(b, emailOk)
    case None => (s, Reply(BadRequest, Message("Invalid registration data")))
    case Some(ins) =>
      match GetTournament(s, ins.tournamentId)
      case None => (s, Reply(NotFound, Message("Tournament not found")))
      case Some(t) =>
        if IsFull(t) then (s, Reply(BadRequest, Message("Tournament is full")))
        else if !AcceptsRegistrations(t) then (s, Reply(BadRequest, Message("Registration is closed for this tournament")))
        else
          var (s', g) := CreateRegistrationAsWritten(s, ins, newId, now);
          AsWrittenAgreesWhenKeysMatch(s, ins, newId, now);
          (s', Reply(Created, RegistrationJson(g)))
  }

  /** An accepted registration adds exactly one registration, referencing the
      tournament. While every tournament sits under its own id, that
      tournament gains one player and no other tournament changes. */
  lemma AcceptedRegistration(s: Store, b: RegistrationBody, emailOk: EmailCheck, newId: Id, now: Time)
    requires newId !in s.registrations.rows
    requires ParseRegistration(b, emailOk).Some? && Admits(s, ParseRegistration(b, emailOk).value)
    ensures PostRegistration(s, b, emailOk, newId, now).1.code == Created
    ensures var s' := PostRegistration(s, b, emailOk, newId, now).0;
            && |s'.registrations.rows| == |s.registrations.rows| + 1
            && s'.registrations.rows.Keys == s.registrations.rows.Keys + {newId}
            && s'.registrations.rows[newId].tournamentId == b.tournamentId.value
    ensures KeysMatch(s) ==>
            var s' := PostRegistration(s, b, emailOk, newId, now).0;
            var tid := b.tournamentId.value;
            && tid in s.tournaments.rows && tid in s'.tournaments.rows
            && s'.tournaments.rows[tid].currentPlayers == s.tournaments.rows[tid].currentPlayers + 1
            && s'.tournaments.rows[tid].(currentPlayers := s.tournaments.rows[tid].currentPlayers) == s.tournaments.rows[tid]
            && (forall k :: k != tid ==> s'.tournaments.Get(k) == s.tournaments.Get(k))
  {
    var ins := ParseRegistration(b, emailOk).value;
    var s' := PostRegistration(s, b, emailOk, newId, now).0;
    var c := CreateRegistration(s, ins, newId, now).0;
    assert s'.registrations == c.registrations;
    assert c.registrations.Get(newId).Some?;
    assert forall k :: k in c.registrations.rows <==> k in s.registrations.rows || k == newId by {
      forall k ensures k in c.registrations.rows <==> k in s.registrations.rows || k == newId {
        if k != newId {
          assert c.registrations.Get(k) == s.registrations.Get(k);
        }
      }
    }
    if KeysMatch(s) {
      assert s' == c;
      assert c.tournaments.Get(ins.tournamentId).Some?;
    }
  }

  /** A full tournament reports "full" whatever its status, completed included. */
  lemma FullBeforeClosed(s: Store, b: RegistrationBody, emailOk: EmailCheck, newId: Id, now: Time)
    requires newId !in s.registrations.rows
    requires ParseRegistration(b, emailOk).Some?
    requires b.tournamentId.value in s.tournaments.rows
    requires s.tournaments.rows[b.tournamentId.value].status == Completed
    requires IsFull(s.tournaments.rows[b.tournamentId.value])
    ensures PostRegistration(s, b, emailOk, newId, now).1 == Reply(BadRequest, Message("Tournament is full"))
  {
  }

  /** The capacity invariant holds along any run of registration requests. */
  lemma {:induction false} CapacityAlongRuns(s: Store, bs: seq<RegistrationBody>, emailOk: EmailCheck, ids: seq<Id>, now: Time)
    requires CapacityOk(s) && |ids| == |bs|
    requires forall i, j :: 0 <= i < j < |ids| ==> ids[i] != ids[j]
    requires forall i :: 0 <= i < |ids| ==> ids[i] !in s.registrations.rows
    ensures CapacityOk(RunRegistrations(s, bs, emailOk, ids, now))
    decreases |bs|
  {
    if |bs| > 0 {
      var s' := PostRegistration(s, bs[0], emailOk, ids[0], now).0;
      assert forall k :: k in s'.registrations.rows ==> k in s.registrations.rows || k == ids[0] by {
        forall k | k in s'.registrations.rows ensures k in s.registrations.rows || k == ids[0] {
          if k != ids[0] && s'.registrations != s.registrations {
            assert s'.registrations.Get(k) == CreateRegistration(s, ParseRegistration(bs[0], emailOk).value, ids[0], now).0.registrations.Get(k);
          }
        }
      }
      assert forall i :: 0 <= i < |ids[1..]| ==> ids[1..][i] !in s'.registrations.rows by {
        forall i | 0 <= i < |ids[1..]| ensures ids[1..][i] !in s'.registrations.rows {
          assert ids[1..][i] == ids[i + 1] != ids[0];
        }
      }
      CapacityAlongRuns(s', bs[1..], emailOk, ids[1..], now);
    }
  }

  /** Successive POST /api/registrations requests, each with its own fresh id. */
  function RunRegistrations(s: Store, bs: seq<RegistrationBody>, emailOk: EmailCheck, ids: seq<Id>, now: Time): Store
    requires |ids| == |bs|
    requires forall i, j :: 0 <= i < j < |ids| ==> ids[i] != ids[j]
    requires forall i :: 0 <= i < |ids| ==> ids[i] !in s.registrations.rows
    decreases |bs|
  {
    if |bs| == 0 then s
    else
      var s' := PostRegistration(s, bs[0], emailOk, ids[0], now).0;
      assert forall k :: k in s'.registrations.rows ==> k in s.registrations.rows || k == ids[0] by {
        forall k | k in s'.registrations.rows ensures k in s.registrations.rows || k == ids[0] {
          if k != ids[0] && s'.registrations != s.registrations {
            assert s'.registrations.Get(k) == CreateRegistration(s, ParseRegistration(bs[0], emailOk).value, ids[0], now).0.registrations.Get(k);
          }
        }
      }
      RunRegistrations(s', bs[1..], emailOk, ids[1..], now)
  }

  /** A tournament with one place left: the first request is accepted and
      fills it, the second is refused as full and changes nothing. */
  lemma LastPlaceScenario(s: Store, tid: Id, b1: RegistrationBody, b2: RegistrationBody, emailOk: EmailCheck, id1: Id, id2: Id, now: Time)
    requires KeysMatch(s) && tid in s.tournaments.rows
    requires s.tournaments.rows[tid].maxPlayers == 2 && s.tournaments.rows[tid].currentPlayers == 1
    requires s.tournaments.rows[tid].status == Upcoming
    requires ParseRegistration(b1, emailOk).Some? && b1.tournamentId == Some(tid)
    requires ParseRegistration(b2, emailOk).Some? && b2.tournamentId == Some(tid)
    requires id1 != id2 && id1 !in s.registrations.rows && id2 !in s.registrations.rows
    ensures var (s1, r1) := PostRegistration(s, b1, emailOk, id1, now);
            && r1.code == Created
            && s1.tournaments.rows[tid].currentPlayers == 2
            && id2 !in s1.registrations.rows
            && var (s2, r2) := PostRegistration(s1, b2, emailOk, id2, now);
               && r2 == Reply(BadRequest, Message("Tournament is full"))
               && s2 == s1
  {
    var (s1, r1) := PostRegistration(s, b1, emailOk, id1, now);
    AcceptedRegistration(s, b1, emailOk, id1, now);
  }

  /** GET /api/blog/posts */
  function ListPosts(s: Store): (r: Reply)
    requires s.blogPosts.Valid()
    ensures r.code == OK && r.body.PostsJson?
    ensures forall i, j :: 0 <= i < j < |r.body.posts| ==> r.body.posts[i].createdAt >= r.body.posts[j].createdAt
    ensures forall p :: p in r.body.posts <==> p in s.blogPosts.rows.Values
    ensures multiset(r.body.posts) == multiset(s.blogPosts.Values())
  {
    Reply(OK, PostsJson(GetBlogPosts(s)))
  }

  /** GET /api/blog/posts/:id: a hit counts one view and replies with the post
      as it was read, before the count. */
  function ShowPost(s: Store, id: Id): (r: (Store, Reply))
    ensures r.1.code == NotFound <==> id !in s.blogPosts.rows
    ensures r.1.code == NotFound ==> r.0 == s
    ensures r.1.code == OK <==> id in s.blogPosts.rows
    ensures r.1.code == OK ==>
              && r.1.body == PostJson(s.blogPosts.rows[id])
              && id in r.0.blogPosts.rows
              && r.0.blogPosts.rows[id].views == r.1.body.post.views + 1
              && r.0.blogPosts.rows[id].(views := r.1.body.post.views) == r.1.body.post
    ensures forall k :: k != id ==> r.0.blogPosts.Get(k) == s.blogPosts.Get(k)
    ensures r.0.(blogPosts := s.blogPosts) == s
  {
    match GetBlogPost(s, id)
    case None => (s, Reply(NotFound, Message("Post not found")))
    case Some(p) => (IncrementPostViews(s, id), Reply(OK, PostJson(p)))
  }

  /** POST /api/contact */
  function PostContact(s: Store, b: ContactBody, newId: Id, now: Time): (r: (Store, Reply))
    requires newId !in s.contacts.rows
    ensures r.1.code == Created || r.1.code == BadRequest
    ensures r.1.code == Created <==> ParseContact(b).Some?
    ensures r.1.code == BadRequest ==> r.0 == s
    ensures r.1.code == Created ==>
              && r.1.body == CreatedJson("Message sent successfully", newId)
              && r.0.contacts.Get(newId).Some?
              && ContactBodyOf(InsertContact(r.0.contacts.rows[newId].name, r.0.contacts.rows[newId].email,
                                             r.0.contacts.rows[newId].subject, r.0.contacts.rows[newId].message)) == b
              && r.0.contacts.rows[newId].status == DefaultContactStatus
    ensures forall k :: k != newId ==> r.0.contacts.Get(k) == s.contacts.Get(k)
    ensures r.0.(contacts := s.contacts) == s
  {
    match ParseContact(b)
    case None => (s, Reply(BadRequest, Message("Invalid contact data")))
    case Some(ins) =>
      var (s', c) := CreateContact(s, ins, newId, now);
      (s', Reply(Created, CreatedJson("Message sent successfully", c.id)))
  }

  /** POST /api/newsletter */
  function PostNewsletter(s: Store, b: NewsletterBody, emailOk: EmailCheck, newId: Id, now: Time): (r: (Store, Reply))
    requires newId !in s.newsletters.rows
    ensures r.1.code == Created || r.1.code == BadRequest
    ensures r.1.code == Created <==> b.email.Some? && emailOk(b.email.value)
    ensures r.1.code == BadRequest ==> r.0 == s
    ensures r.1.code == Created ==>
              && r.1.body == CreatedJson("Successfully subscribed to newsletter", newId)
              && r.0.newsletters.Get(newId).Some?
              && Some(r.0.newsletters.rows[newId].email) == b.email
              && r.0.newsletters.rows[newId].isActive
    ensures forall k :: k != newId ==> r.0.newsletters.Get(k) == s.newsletters.Get(k)
    ensures r.0.(newsletters := s.newsletters) == s
  {
    match ParseNewsletter(b, emailOk)
    case None => (s, Reply(BadRequest, Message("Invalid email address")))
    case Some(ins) =>
      var (s', n) := CreateNewsletterSubscription(s, ins, newId, now);
      (s', Reply(Created, CreatedJson("Successfully subscribed to newsletter", n.id)))
  }
}
