/**
 The entities of the football event tracker (teams, matches and events) as
 values, and the pure operations the resolvers build on: the search for the
 first entity with a given id and the filter of events by the id of their match.
 */
module Entities {
  import Decimal

  datatype Option<+T> = None | Some(value: T)

  /** What a resolver gives back: a value, or the message of the error it throws. */
  datatype Result<+T> = Success(value: T) | Failure(message: string)

  datatype EventType = Goal | YellowCard | RedCard | Substitution | Foul

  datatype Team = Team(id: string, name: string)

  /** An event holds a copy of its team, fixed when the event is created,
      and names its match only by id. */
  datatype Event = Event(
    id: string,
    matchId: string,
    minute: int,
    eventType: EventType,
    description: Option<string>,
    team: Team)

  /** A match holds copies of its two teams and the events recorded for it,
      oldest first. */
  datatype Match = Match(
    id: string,
    homeTeam: Team,
    awayTeam: Team,
    date: string,
    events: seq<Event>)

  function TeamIds(ts: seq<Team>): seq<string>
  {
    seq(|ts|, i requires 0 <= i < |ts| => ts[i].id)
  }

  function MatchIds(ms: seq<Match>): seq<string>
  {
    seq(|ms|, i requires 0 <= i < |ms| => ms[i].id)
  }

  function EventIds(es: seq<Event>): seq<string>
  {
    seq(|es|, i requires 0 <= i < |es| => es[i].id)
  }

  /** The position of the first id equal to `id`, scanning from the front as
      `Array.prototype.find` does; None when no id is equal to it. */
  function FirstIndex(ids: seq<string>, id: string): (r: Option<nat>)
    ensures r.None? <==> id !in ids
    ensures r.Some? ==> r.value < |ids| && ids[r.value] == id && id !in ids[..r.value]
  {
    if |ids| == 0 then None
    else if ids[0] == id then Some(0)
    else match FirstIndex(ids[1..], id)
      case None => None
      case Some(k) =>
        assert ids[..k + 1] == [ids[0]] + ids[1..][..k];
        Some(k + 1)
  }

  /** `teams.find(t => t.id === id)`. */
  function FindTeam(ts: seq<Team>, id: string): (r: Option<Team>)
    ensures r.None? <==> forall i :: 0 <= i < |ts| ==> ts[i].id != id
    ensures r.Some? ==> r.value in ts && r.value.id == id
  {
    match FirstIndex(TeamIds(ts), id)
    case None =>
      assert forall i :: 0 <= i < |ts| ==> TeamIds(ts)[i] == ts[i].id;
      None
    case Some(k) => Some(ts[k])
  }

  /** `matches.find(m => m.id === id)`. */
  function FindMatch(ms: seq<Match>, id: string): (r: Option<Match>)
    ensures r.None? <==> forall i :: 0 <= i < |ms| ==> ms[i].id != id
    ensures r.Some? ==> r.value in ms && r.value.id == id
  {
    match FirstIndex(MatchIds(ms), id)
    case None =>
      assert forall i :: 0 <= i < |ms| ==> MatchIds(ms)[i] == ms[i].id;
      None
    case Some(k) => Some(ms[k])
  }

  /** `events.filter(e => e.matchId === matchId)`: the events of one match,
      in the order of `es`. */
  function EventsOf(es: seq<Event>, matchId: string): (r: seq<Event>)
    ensures |r| <= |es|
    ensures r == [] <==> forall i :: 0 <= i < |es| ==> es[i].matchId != matchId
  {
    if es == [] then []
    else (if es[0].matchId == matchId then [es[0]] else []) + EventsOf(es[1..], matchId)
  }

  /** The filter keeps exactly the events that name the match. */
  lemma {:induction false} EventsOfMembers(es: seq<Event>, matchId: string)
    ensures forall e :: e in EventsOf(es, matchId) <==> e in es && e.matchId == matchId
  {
    if es != [] {
      EventsOfMembers(es[1..], matchId);
      assert es == [es[0]] + es[1..];
    }
  }

  /** Filtering a list with one more event at its end gives the old result,
      followed by that event when it belongs to the match. With
      `EventsOf([], matchId) == []` this fixes the filter's order completely. */
  lemma {:induction false} EventsOfAppend(es: seq<Event>, e: Event, matchId: string)
    ensures EventsOf(es + [e], matchId)
         == EventsOf(es, matchId) + (if e.matchId == matchId then [e] else [])
  {
    var tail := if e.matchId == matchId then [e] else [];
    if es == [] {
      assert EventsOf([e], matchId) == tail + EventsOf([], matchId);
    } else {
      var head := if es[0].matchId == matchId then [es[0]] else [];
      assert (es + [e])[0] == es[0];
      assert (es + [e])[1..] == es[1..] + [e];
      EventsOfAppend(es[1..], e, matchId);
      calc {
        EventsOf(es + [e], matchId);
        head + EventsOf(es[1..] + [e], matchId);
        head + (EventsOf(es[1..], matchId) + tail);
        (head + EventsOf(es[1..], matchId)) + tail;
        EventsOf(es, matchId) + tail;
      }
    }
  }

  /** The ids issued by a counter that starts at 1: position i holds the
      numeral of i + 1. */
  ghost predicate DenseIds(ids: seq<string>)
  {
    forall i :: 0 <= i < |ids| ==> ids[i] == Decimal.Format(i + 1)
  }

  /** In a list of dense ids no id occurs twice, so a search by id finds at
      most one entity. */
  lemma {:induction false} DenseIdsUnique(ids: seq<string>, i: nat, j: nat)
    requires DenseIds(ids)
    requires i < |ids| && j < |ids| && ids[i] == ids[j]
    ensures i == j
  {
    Decimal.FormatInjective(i + 1, j + 1);
  }

  /** In a list of dense ids, the search for an id finds position k exactly
      when the id is the numeral of k + 1 and k is in range. */
  lemma {:induction false} DenseFind(ids: seq<string>, id: string, k: nat)
    requires DenseIds(ids)
    ensures FirstIndex(ids, id) == Some(k) <==> k < |ids| && id == Decimal.Format(k + 1)
  {
    var r := FirstIndex(ids, id);
    if k < |ids| && id == Decimal.Format(k + 1) {
      assert ids[k] == id;
      DenseIdsUnique(ids, r.value, k);
    }
  }

  /** The next id a counter issues is not among those it issued before. */
  lemma {:induction false} DenseNextIsFresh(ids: seq<string>)
    requires DenseIds(ids)
    ensures Decimal.Format(|ids| + 1) !in ids
  {
    if Decimal.Format(|ids| + 1) in ids {
      var i :| 0 <= i < |ids| && ids[i] == Decimal.Format(|ids| + 1);
      Decimal.FormatInjective(i + 1, |ids| + 1);
    }
  }

  /** With dense ids, looking up the numeral of k + 1 finds the team at
      position k. */
  lemma {:induction false} FindTeamAt(ts: seq<Team>, k: nat)
    requires DenseIds(TeamIds(ts)) && k < |ts|
    ensures FindTeam(ts, Decimal.Format(k + 1)) == Some(ts[k])
  {
    DenseFind(TeamIds(ts), Decimal.Format(k + 1), k);
  }

  /** With dense ids, looking up the numeral of k + 1 finds the match at
      position k. */
  lemma {:induction false} FindMatchAt(ms: seq<Match>, k: nat)
    requires DenseIds(MatchIds(ms)) && k < |ms|
    ensures FindMatch(ms, Decimal.Format(k + 1)) == Some(ms[k])
  {
    DenseFind(MatchIds(ms), Decimal.Format(k + 1), k);
  }
}
