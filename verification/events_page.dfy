/** The events page: live, upcoming and recently completed tournaments, the
    featured tournament, and the join button of a live card. */
module EventsPage {
  import opened Wrappers
  import opened Seqs
  import opened Schema
  import opened Storage
  import opened Routes
  import opened TournamentCard

  /** The tournaments with status `live`, in the order given. */
  function LiveTournaments(ts: seq<Tournament>): (r: seq<Tournament>)
    ensures Selects(r, ts, IsLive)
    ensures forall t :: t in r <==> t in ts && t.status == Live
  {
    Filter(ts, IsLive)
  }

  /** The tournaments with status `upcoming`, in the order given; live ones are not among them. */
  function UpcomingTournaments(ts: seq<Tournament>): (r: seq<Tournament>)
    ensures Selects(r, ts, IsUpcoming)
    ensures forall t :: t in r <==> t in ts && t.status == Upcoming
    ensures forall i :: 0 <= i < |r| ==> r[i].status != Live
  {
    Filter(ts, IsUpcoming)
  }

  /** At most three completed tournaments: the first ones in the order given. */
  function RecentCompletedTournaments(ts: seq<Tournament>): (r: seq<Tournament>)
    ensures |r| <= 3
    ensures |r| == Min(3, |Filter(ts, IsCompleted)|)
    ensures r == Filter(ts, IsCompleted)[..|r|]
    ensures forall i :: 0 <= i < |r| ==> r[i].status == Completed && r[i] in ts
  {
    var done := Filter(ts, IsCompleted);
    var r := Take(done, 3);
    assert forall i :: 0 <= i < |r| ==> r[i] in done by {
      forall i | 0 <= i < |r| ensures r[i] in done {
        assert r[i] == done[i];
      }
    }
    r
  }

  predicate BigPrize(t: Tournament) {
    t.prizePool >= 10000
  }

  /** The featured tournament: the first upcoming one with a prize pool of at
      least 10000, else the first upcoming one, else none. */
  function FeaturedTournament(ts: seq<Tournament>): (r: Option<Tournament>)
    ensures r.None? <==> forall i :: 0 <= i < |ts| ==> ts[i].status != Upcoming
    ensures r.Some? ==> r.value in ts && r.value.status == Upcoming
    ensures (exists i :: 0 <= i < |ts| && ts[i].status == Upcoming && BigPrize(ts[i])) ==>
              r.Some? && BigPrize(r.value)
              && exists i :: 0 <= i < |ts| && ts[i] == r.value
                             && forall j :: 0 <= j < i ==> !(IsUpcoming(ts[j]) && BigPrize(ts[j]))
    ensures (forall i :: 0 <= i < |ts| ==> !(ts[i].status == Upcoming && BigPrize(ts[i]))) ==>
              r == First(UpcomingTournaments(ts))
  {
    var up := UpcomingTournaments(ts);
    match Find(up, BigPrize)
    case Some(t) =>
      FirstBigIsFirstInInput(ts);
      Some(t)
    case None =>
      if |up| > 0 then assert up[0] in up; Some(up[0])
      else
        assert forall i :: 0 <= i < |ts| ==> ts[i].status != Upcoming by {
          forall i | 0 <= i < |ts| ensures ts[i].status != Upcoming {
            assert ts[i] in ts;
          }
        }
        None
  }

  /** The first big-prize tournament among the upcoming ones is the first
      upcoming big-prize tournament of the whole list. */
  lemma FirstBigIsFirstInInput(ts: seq<Tournament>)
    requires Find(UpcomingTournaments(ts), BigPrize).Some?
    ensures var t := Find(UpcomingTournaments(ts), BigPrize).value;
            exists i :: 0 <= i < |ts| && ts[i] == t
                        && forall j :: 0 <= j < i ==> !(IsUpcoming(ts[j]) && BigPrize(ts[j]))
  {
    var big := (t: Tournament) => IsUpcoming(t) && BigPrize(t);
    var up := UpcomingTournaments(ts);
    FilterFilter(ts, IsUpcoming, BigPrize, big);
    FindIsFilterHead(up, BigPrize);
    FilterHead(ts, big);
  }

  /** A live card's join button: disabled, and reading "Tournament Full",
      exactly when no place is left. */
  datatype JoinButton = JoinButton(disabled: bool, caption: string)

  function LiveJoinButton(t: Tournament): (b: JoinButton)
    ensures b.disabled <==> IsFull(t)
    ensures b.caption == "Tournament Full" <==> IsFull(t)
    ensures !IsFull(t) ==> b.caption == "Join Now"
  {
    JoinButton(IsFull(t), if IsFull(t) then "Tournament Full" else "Join Now")
  }

  /** The live card's join button applies the same capacity test as the
      tournament card: it is disabled exactly when the card shows
      "Tournament Full", and otherwise reads what the card's register
      button reads. */
  lemma LiveJoinButtonMatchesCard(t: Tournament)
    requires t.status == Live
    ensures LiveJoinButton(t).disabled <==> ButtonFor(t).Full?
    ensures !LiveJoinButton(t).disabled <==> ButtonFor(t) == Register(LiveJoinButton(t).caption)
  {
  }

  /** For a stored live tournament and a well-formed request, the join button
      is enabled exactly when the server would register the player; when it
      is disabled, the server answers "Tournament is full". The button itself
      sends nothing. */
  lemma LiveJoinButtonMatchesServer(s: Store, b: RegistrationBody, emailOk: EmailCheck, newId: Id, now: Time)
    requires newId !in s.registrations.rows
    requires ParseRegistration(b, emailOk).Some?
    requires b.tournamentId.value in s.tournaments.rows
    requires s.tournaments.rows[b.tournamentId.value].status == Live
    ensures !LiveJoinButton(s.tournaments.rows[b.tournamentId.value]).disabled
            <==> PostRegistration(s, b, emailOk, newId, now).1.code == Created
    ensures LiveJoinButton(s.tournaments.rows[b.tournamentId.value]).disabled ==>
              PostRegistration(s, b, emailOk, newId, now).1 == Reply(BadRequest, Message("Tournament is full"))
  {
    var t := s.tournaments.rows[b.tournamentId.value];
    LiveJoinButtonMatchesCard(t);
    RegisterShownIffServerAccepts(s, b, emailOk, newId, now);
    DisabledButtonsMatchServerMessages(s, b, emailOk, newId, now);
  }
}
