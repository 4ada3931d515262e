/** The tournaments page: its open/completed partition, the "Next Tournament"
    panel and the registration dialog's state. */
module TournamentsPage {
  import opened Wrappers
  import opened Seqs
  import opened Schema

  /** The tournaments still taking registrations (`upcoming` or `live`), in the order given. */
  function UpcomingTournaments(ts: seq<Tournament>): (r: seq<Tournament>)
    ensures Selects(r, ts, AcceptsRegistrations)
    ensures forall t :: t in r <==> t in ts && (t.status == Upcoming || t.status == Live)
  {
    Filter(ts, AcceptsRegistrations)
  }

  /** The completed tournaments, in the order given. */
  function CompletedTournaments(ts: seq<Tournament>): (r: seq<Tournament>)
    ensures Selects(r, ts, IsCompleted)
    ensures forall t :: t in r <==> t in ts && t.status == Completed
  {
    Filter(ts, IsCompleted)
  }

  /** The two lists share no tournament, and a tournament with any other
      status appears in neither. */
  lemma PartitionDisjoint(ts: seq<Tournament>)
    ensures forall t :: !(t in UpcomingTournaments(ts) && t in CompletedTournaments(ts))
    ensures forall t :: t in ts && t.status.Other? ==> t !in UpcomingTournaments(ts) && t !in CompletedTournaments(ts)
    ensures |UpcomingTournaments(ts)| + |CompletedTournaments(ts)| <= |ts|
  {
    var up := UpcomingTournaments(ts);
    var done := CompletedTournaments(ts);
    var either := (t: Tournament) => AcceptsRegistrations(t) || IsCompleted(t);
    FilterSplit(ts, AcceptsRegistrations, IsCompleted, either);
  }

  /** The "Next Tournament" panel: shown only when some tournament takes
      registrations, and then for the first such tournament in the list. */
  function NextTournament(ts: seq<Tournament>): (r: Option<Tournament>)
    ensures r.Some? <==> exists i :: 0 <= i < |ts| && AcceptsRegistrations(ts[i])
    ensures r.Some? ==> r == Some(UpcomingTournaments(ts)[0])
    ensures r.Some? ==> exists i :: 0 <= i < |ts| && ts[i] == r.value && AcceptsRegistrations(ts[i])
                                    && forall j :: 0 <= j < i ==> !AcceptsRegistrations(ts[j])
  {
    var up := UpcomingTournaments(ts);
    if |up| > 0 then
      FilterHead(ts, AcceptsRegistrations);
      Some(up[0])
    else
      assert forall i :: 0 <= i < |ts| ==> !AcceptsRegistrations(ts[i]) by {
        forall i | 0 <= i < |ts| ensures !AcceptsRegistrations(ts[i]) {
          assert ts[i] in ts;
        }
      }
      None
  }

  /** The registration dialog: whether it is open and which tournament it was opened for. */
  datatype Dialog = Dialog(open: bool, selected: Option<Id>)

  const InitialDialog := Dialog(false, None)

  /** A closed dialog has no selection. */
  predicate Tidy(d: Dialog) {
    !d.open ==> d.selected.None?
  }

  /** A card's register button: select the tournament and open the dialog. */
  function HandleRegister(d: Dialog, id: Id): (r: Dialog)
    ensures r.open && r.selected == Some(id)
  {
    Dialog(true, Some(id))
  }

  /** The dialog opening or closing itself; closing clears the selection. */
  function OnOpenChange(d: Dialog, open: bool): (r: Dialog)
    ensures r.open == open
    ensures !open ==> r.selected.None?
    ensures open ==> r.selected == d.selected
  {
    Dialog(open, if open then d.selected else None)
  }

  /** A successful submission closes the dialog and clears the selection. */
  function OnSuccess(d: Dialog): (r: Dialog)
    ensures !r.open && r.selected.None?
  {
    Dialog(false, None)
  }

  /** The dialog events of the page. */
  datatype DialogEvent = RegisterClicked(id: Id) | OpenChanged(open: bool) | Succeeded

  function Step(d: Dialog, e: DialogEvent): Dialog {
    match e
    case RegisterClicked(id) => HandleRegister(d, id)
    case OpenChanged(open) => OnOpenChange(d, open)
    case Succeeded => OnSuccess(d)
  }

  function Run(d: Dialog, es: seq<DialogEvent>): Dialog
    decreases |es|
  {
    if |es| == 0 then d else Run(Step(d, es[0]), es[1..])
  }

  /** A run keeps a closed dialog free of a selection. */
  lemma {:induction false} RunStaysTidy(d: Dialog, es: seq<DialogEvent>)
    requires Tidy(d)
    ensures Tidy(Run(d, es))
    decreases |es|
  {
    if |es| > 0 {
      RunStaysTidy(Step(d, es[0]), es[1..]);
    }
  }

  /** A selection after a run is the one held before it or the tournament of
      some register click during it. */
  lemma {:induction false} SelectionFromClick(d: Dialog, es: seq<DialogEvent>)
    ensures Run(d, es).selected.Some? ==>
              Run(d, es).selected == d.selected
              || exists i :: 0 <= i < |es| && es[i] == RegisterClicked(Run(d, es).selected.value)
    decreases |es|
  {
    if |es| > 0 {
      var d' := Step(d, es[0]);
      SelectionFromClick(d', es[1..]);
      var e := Run(d, es);
      assert e == Run(d', es[1..]);
      if e.selected.Some? && e.selected != d.selected {
        if e.selected == d'.selected {
          assert es[0] == RegisterClicked(e.selected.value);
        } else {
          var i :| 0 <= i < |es[1..]| && es[1..][i] == RegisterClicked(e.selected.value);
          assert es[i + 1] == RegisterClicked(e.selected.value);
        }
      }
    }
  }

  /** From the page's initial state, whatever happens, a closed dialog holds
      no selection, and any selection is a tournament whose card was clicked. */
  lemma DialogStaysTidy(es: seq<DialogEvent>)
    ensures Tidy(Run(InitialDialog, es))
    ensures Run(InitialDialog, es).selected.Some? ==>
              exists i :: 0 <= i < |es| && es[i] == RegisterClicked(Run(InitialDialog, es).selected.value)
  {
    RunStaysTidy(InitialDialog, es);
    SelectionFromClick(InitialDialog, es);
  }
}
