/**
 The in-memory entity store behind the GraphQL resolvers: three append-only
 lists (teams, matches, events) and three id counters that start at 1. The
 query resolvers read the lists; the three mutation resolvers check that the
 ids they are given name stored entities, then issue the next id, build the new
 entity and append it. An event is appended both to the global list of events
 and to the list of events of its match.
 */
module EntityStore {
  import Decimal
  import opened Entities

  const TeamNotFound := "Team not found"
  const MatchOrTeamNotFound := "Match or Team not found"

  /** The ids in each list are "1", "2", ... in creation order. */
  ghost predicate IdsDense(ts: seq<Team>, ms: seq<Match>, es: seq<Event>)
  {
    DenseIds(TeamIds(ts)) && DenseIds(MatchIds(ms)) && DenseIds(EventIds(es))
  }

  /** Every team a match or an event holds is a stored team, and every event
      names a stored match. */
  ghost predicate ReferencesResolve(ts: seq<Team>, ms: seq<Match>, es: seq<Event>)
  {
    && (forall i :: 0 <= i < |ms| ==> ms[i].homeTeam in ts && ms[i].awayTeam in ts)
    && (forall i :: 0 <= i < |es| ==> es[i].team in ts && es[i].matchId in MatchIds(ms))
  }

  /** The events a match holds are the global events that name it, in the
      order they were created. */
  ghost predicate MatchEventsAgree(ms: seq<Match>, es: seq<Event>)
  {
    forall i :: 0 <= i < |ms| ==> ms[i].events == EventsOf(es, ms[i].id)
  }

  ghost predicate Consistent(ts: seq<Team>, ms: seq<Match>, es: seq<Event>)
  {
    IdsDense(ts, ms, es) && ReferencesResolve(ts, ms, es) && MatchEventsAgree(ms, es)
  }

  /** Appending a team that carries the next team id keeps the lists consistent. */
  lemma {:induction false} AddTeamKeepsConsistent(ts: seq<Team>, ms: seq<Match>, es: seq<Event>, t: Team)
    requires Consistent(ts, ms, es) && t.id == Decimal.Format(|ts| + 1)
    ensures Consistent(ts + [t], ms, es)
  {
    assert TeamIds(ts + [t]) == TeamIds(ts) + [t.id];
  }

  /** Appending a match that carries the next match id, two stored teams and
      no events keeps the lists consistent: no stored event can name the new
      id, so its empty list of events agrees with the global one. */
  lemma {:induction false} AddMatchKeepsConsistent(ts: seq<Team>, ms: seq<Match>, es: seq<Event>, m: Match)
    requires Consistent(ts, ms, es)
    requires m.id == Decimal.Format(|ms| + 1) && m.homeTeam in ts && m.awayTeam in ts
    requires m.events == []
    ensures Consistent(ts, ms + [m], es)
  {
    DenseNextIsFresh(MatchIds(ms));
    forall i | 0 <= i < |es|
      ensures es[i].matchId != m.id
    {
      assert es[i].matchId in MatchIds(ms);
    }
    assert MatchIds(ms + [m]) == MatchIds(ms) + [m.id];
  }

  /** An event that carries the next event id is not among the stored events,
      and appending it keeps the event ids dense. */
  lemma {:induction false} NextEventIsNew(es: seq<Event>, e: Event)
    requires DenseIds(EventIds(es)) && e.id == Decimal.Format(|es| + 1)
    ensures e !in es
    ensures DenseIds(EventIds(es + [e]))
  {
    DenseNextIsFresh(EventIds(es));
    forall i | 0 <= i < |es|
      ensures es[i].id != e.id
    {
      assert EventIds(es)[i] == es[i].id;
    }
    assert EventIds(es + [e]) == EventIds(es) + [e.id];
  }

  /** The matches after an event is recorded: every match with the event's
      match id has the event appended to its events, every other match is as
      it was. */
  function WithEvent(ms: seq<Match>, e: Event): seq<Match>
  {
    seq(|ms|, i requires 0 <= i < |ms| =>
      if ms[i].id == e.matchId then ms[i].(events := ms[i].events + [e]) else ms[i])
  }

  /** Appending an event to the global list and to the list of the match at
      position k that it names keeps every match's list equal to the filtered
      global list: with dense ids, the match at k is the only one with that id,
      so every other match's filtered list is unchanged. */
  lemma {:induction false} RecordEventKeepsAgreement(ms: seq<Match>, es: seq<Event>, e: Event,
                                                     k: nat, updated: seq<Match>)
    requires DenseIds(MatchIds(ms)) && MatchEventsAgree(ms, es)
    requires k < |ms| && ms[k].id == e.matchId
    requires updated == ms[k := ms[k].(events := ms[k].events + [e])]
    ensures forall i :: 0 <= i < |ms| && ms[i].id == e.matchId ==> i == k
    ensures MatchIds(updated) == MatchIds(ms)
    ensures updated == WithEvent(ms, e)
    ensures MatchEventsAgree(updated, es + [e])
  {
    forall i | 0 <= i < |ms|
      ensures ms[i].id == e.matchId ==> i == k
      ensures updated[i].events == EventsOf(es + [e], updated[i].id)
    {
      EventsOfAppend(es, e, ms[i].id);
      if ms[i].id == e.matchId {
        assert MatchIds(ms)[i] == MatchIds(ms)[k];
        DenseIdsUnique(MatchIds(ms), i, k);
      }
    }
    assert MatchIds(updated) == MatchIds(ms);
    assert forall i :: 0 <= i < |ms| ==> updated[i] == WithEvent(ms, e)[i];
  }

  /** What recording an event that carries the next event id at the match at
      position k that it names amounts to: the event is new, the matches are
      those of `WithEvent`, and the event ends the list of events of its match. */
  lemma {:induction false} RecordedEvent(ms: seq<Match>, es: seq<Event>, e: Event, k: nat)
    requires DenseIds(MatchIds(ms)) && MatchEventsAgree(ms, es) && DenseIds(EventIds(es))
    requires k < |ms| && ms[k].id == e.matchId && e.id == Decimal.Format(|es| + 1)
    ensures e !in es
    ensures ms[k := ms[k].(events := ms[k].events + [e])] == WithEvent(ms, e)
    ensures EventsOf(es + [e], e.matchId) == EventsOf(es, e.matchId) + [e]
  {
    NextEventIsNew(es, e);
    RecordEventKeepsAgreement(ms, es, e, k, ms[k := ms[k].(events := ms[k].events + [e])]);
    EventsOfAppend(es, e, e.matchId);
  }

  /** Appending an event whose team is stored, to the global list and to the
      list of the match at position k that it names, keeps every reference
      resolvable. */
  lemma {:induction false} AddEventKeepsReferences(ts: seq<Team>, ms: seq<Match>, es: seq<Event>, e: Event,
                                                   k: nat, updated: seq<Match>)
    requires ReferencesResolve(ts, ms, es)
    requires k < |ms| && ms[k].id == e.matchId && e.team in ts
    requires updated == ms[k := ms[k].(events := ms[k].events + [e])]
    ensures ReferencesResolve(ts, updated, es + [e])
  {
    assert MatchIds(updated) == MatchIds(ms);
    assert MatchIds(ms)[k] == e.matchId;
    forall i | 0 <= i < |updated|
      ensures updated[i].homeTeam in ts && updated[i].awayTeam in ts
    {
      assert updated[i].homeTeam == ms[i].homeTeam && updated[i].awayTeam == ms[i].awayTeam;
    }
    forall i | 0 <= i < |es + [e]|
      ensures (es + [e])[i].team in ts && (es + [e])[i].matchId in MatchIds(updated)
    {
      if i < |es| {
        assert (es + [e])[i] == es[i];
      }
    }
  }

  /** Appending an event that carries the next event id and a stored team to
      the global list, and to the list of the match at position k that it
      names, keeps the lists consistent. */
  lemma {:induction false} AddEventKeepsConsistent(ts: seq<Team>, ms: seq<Match>, es: seq<Event>, e: Event,
                                                   k: nat, updated: seq<Match>)
    requires Consistent(ts, ms, es)
    requires k < |ms| && ms[k].id == e.matchId
    requires e.team in ts && e.id == Decimal.Format(|es| + 1)
    requires updated == ms[k := ms[k].(events := ms[k].events + [e])]
    ensures e !in es
    ensures Consistent(ts, updated, es + [e])
  {
    NextEventIsNew(es, e);
    RecordEventKeepsAgreement(ms, es, e, k, updated);
    AddEventKeepsReferences(ts, ms, es, e, k, updated);
    assert IdsDense(ts, updated, es + [e]);
  }

  class Store {
    var teams: seq<Team>
    var matches: seq<Match>
    var events: seq<Event>
    var teamIdCounter: nat
    var matchIdCounter: nat
    var eventIdCounter: nat

    /** Each counter holds the next id of its list, and the lists are consistent. */
    ghost predicate Valid()
      reads this
    {
      && teamIdCounter == |teams| + 1
      && matchIdCounter == |matches| + 1
      && eventIdCounter == |events| + 1
      && Consistent(teams, matches, events)
    }

    /** The store as the server starts it: empty lists, every counter at 1. */
    constructor ()
      ensures Valid()
      ensures teams == [] && matches == [] && events == []
      ensures teamIdCounter == 1 && matchIdCounter == 1 && eventIdCounter == 1
    {
      teams, matches, events := [], [], [];
      teamIdCounter, matchIdCounter, eventIdCounter := 1, 1, 1;
    }

    /** Query `matches`: every stored match, in creation order. */
    function AllMatches(): (r: seq<Match>)
      reads this
      requires Valid()
      ensures |r| == matchIdCounter - 1
      ensures forall i :: 0 <= i < |r| ==> r[i].id == Decimal.Format(i + 1)
      ensures forall i :: 0 <= i < |r| ==> r[i].events == EventsOf(events, r[i].id)
    {
      assert forall i :: 0 <= i < |matches| ==> MatchIds(matches)[i] == matches[i].id;
      matches
    }

    /** Query `match(id)`: the stored match with that id, or None; never an error. */
    function MatchById(id: string): (r: Option<Match>)
      reads this
      ensures r.None? <==> id !in MatchIds(matches)
      ensures r.Some? ==> r.value in matches && r.value.id == id
    {
      FindMatch(matches, id)
    }

    /** Query `eventsByMatch(matchId)`: the stored events that name the match,
        in creation order; never an error. */
    function EventsByMatch(matchId: string): (r: seq<Event>)
      reads this
      ensures forall e :: e in r <==> e in events && e.matchId == matchId
    {
      EventsOfMembers(events, matchId);
      EventsOf(events, matchId)
    }

    /** Mutation `createTeam`: issue the next team id and append the team.
        It cannot fail. */
    method CreateTeam(name: string) returns (team: Team)
      requires Valid()
      modifies this
      ensures Valid()
      ensures team == Team(Decimal.Format(old(teamIdCounter)), name)
      ensures team.id == Decimal.Format(|teams|)
      ensures teams == old(teams) + [team] && teamIdCounter == old(teamIdCounter) + 1
      ensures matches == old(matches) && events == old(events)
      ensures matchIdCounter == old(matchIdCounter) && eventIdCounter == old(eventIdCounter)
    {
      team := Team(Decimal.Format(teamIdCounter), name);
      AddTeamKeepsConsistent(teams, matches, events, team);
      teamIdCounter := teamIdCounter + 1;
      teams := teams + [team];
    }

    /** Mutation `createMatch`: look both teams up by id and fail with
        "Team not found" unless both are stored; otherwise issue the next match
        id and append a match with those teams, the date and no events. */
    method CreateMatch(homeTeamId: string, awayTeamId: string, date: string)
      returns (r: Result<Match>)
      requires Valid()
      modifies this
      ensures Valid()
      ensures r.Failure? <==> homeTeamId !in TeamIds(teams) || awayTeamId !in TeamIds(teams)
      ensures r.Failure? ==> r.message == TeamNotFound
      ensures r.Failure? ==> matches == old(matches) && matchIdCounter == old(matchIdCounter)
      ensures r.Success? ==>
        && r.value == Match(Decimal.Format(old(matchIdCounter)),
                            FindTeam(teams, homeTeamId).value, FindTeam(teams, awayTeamId).value,
                            date, [])
        && r.value.homeTeam in teams && r.value.homeTeam.id == homeTeamId
        && r.value.awayTeam in teams && r.value.awayTeam.id == awayTeamId
        && matches == old(matches) + [r.value]
        && matchIdCounter == old(matchIdCounter) + 1
      ensures teams == old(teams) && events == old(events)
      ensures teamIdCounter == old(teamIdCounter) && eventIdCounter == old(eventIdCounter)
    {
      var homeTeam := FindTeam(teams, homeTeamId);
      var awayTeam := FindTeam(teams, awayTeamId);
      assert forall i :: 0 <= i < |teams| ==> TeamIds(teams)[i] == teams[i].id;
      if homeTeam.None? || awayTeam.None? {
        return Failure(TeamNotFound);
      }
      var m := Match(Decimal.Format(matchIdCounter), homeTeam.value, awayTeam.value, date, []);
      AddMatchKeepsConsistent(teams, matches, events, m);
      matchIdCounter := matchIdCounter + 1;
      matches := matches + [m];
      r := Success(m);
    }

    /** The two appends of a successful `createEvent`: the event goes to the
        end of the global events and to the end of the events of the match at
        position k, which is the only match with the event's match id. */
    method Record(e: Event, k: nat)
      requires Valid()
      requires k < |matches| && matches[k].id == e.matchId
      requires e.team in teams && e.id == Decimal.Format(eventIdCounter)
      modifies this
      ensures Valid()
      ensures events == old(events) + [e] && eventIdCounter == old(eventIdCounter) + 1
      ensures matches == old(matches)[k := old(matches)[k].(events := old(matches)[k].events + [e])]
      ensures teams == old(teams)
      ensures teamIdCounter == old(teamIdCounter) && matchIdCounter == old(matchIdCounter)
    {
      var updated := matches[k := matches[k].(events := matches[k].events + [e])];
      AddEventKeepsConsistent(teams, matches, events, e, k, updated);
      events, matches, eventIdCounter := events + [e], updated, eventIdCounter + 1;
    }

    /** Mutation `createEvent`: look the match and the team up by id and fail
        with "Match or Team not found" unless both are stored; otherwise issue
        the next event id, build the event with the stored team and append it
        to the global events and to the events of that match. */
    method CreateEvent(matchId: string, minute: int, eventType: EventType,
                       description: Option<string>, teamId: string)
      returns (r: Result<Event>)
      requires Valid()
      modifies this
      ensures Valid()
      ensures r.Failure? <==> matchId !in MatchIds(old(matches)) || teamId !in TeamIds(teams)
      ensures r.Failure? ==> r.message == MatchOrTeamNotFound
      ensures r.Failure? ==>
        matches == old(matches) && events == old(events) && eventIdCounter == old(eventIdCounter)
      ensures r.Success? ==>
        && r.value == Event(Decimal.Format(old(eventIdCounter)), matchId, minute, eventType,
                            description, FindTeam(teams, teamId).value)
        && r.value.team in teams && r.value.team.id == teamId
        && events == old(events) + [r.value]
        && eventIdCounter == old(eventIdCounter) + 1
        && r.value !in old(events)
        && matches == WithEvent(old(matches), r.value)
        && EventsByMatch(matchId) == old(EventsByMatch(matchId)) + [r.value]
      ensures teams == old(teams)
      ensures teamIdCounter == old(teamIdCounter) && matchIdCounter == old(matchIdCounter)
    {
      var found := FirstIndex(MatchIds(matches), matchId);
      var team := FindTeam(teams, teamId);
      assert forall i :: 0 <= i < |teams| ==> TeamIds(teams)[i] == teams[i].id;
      if found.None? || team.None? {
        return Failure(MatchOrTeamNotFound);
      }
      var k := found.value;
      var e := Event(Decimal.Format(eventIdCounter), matchId, minute, eventType, description, team.value);
      RecordedEvent(matches, events, e, k);
      Record(e, k);
      r := Success(e);
    }
  }

  /** The ids of the stored entities are the numerals of their positions plus
      one: the first team created is "1", the next "2", with no gaps and no
      repeats, and likewise for matches and events. */
  lemma {:induction false} IdsArePositions(s: Store, i: nat)
    requires s.Valid()
    ensures i < |s.teams| ==> s.teams[i].id == Decimal.Format(i + 1)
    ensures i < |s.matches| ==> s.matches[i].id == Decimal.Format(i + 1)
    ensures i < |s.events| ==> s.events[i].id == Decimal.Format(i + 1)
  {
    assert i < |s.teams| ==> TeamIds(s.teams)[i] == s.teams[i].id;
    assert i < |s.matches| ==> MatchIds(s.matches)[i] == s.matches[i].id;
    assert i < |s.events| ==> EventIds(s.events)[i] == s.events[i].id;
  }

  /** `match(id)` on a valid store finds the match at position k exactly when
      the id is the numeral of k + 1; any other string, such as "01" or "0",
      finds nothing. */
  lemma {:induction false} MatchByIdFinds(s: Store, id: string, k: nat)
    requires s.Valid()
    ensures k < |s.matches| ==> (s.MatchById(id) == Some(s.matches[k]) <==> id == Decimal.Format(k + 1))
  {
    DenseFind(MatchIds(s.matches), id, k);
    if k < |s.matches| && s.MatchById(id) == Some(s.matches[k]) {
      assert FirstIndex(MatchIds(s.matches), id).Some?;
      var j := FirstIndex(MatchIds(s.matches), id).value;
      assert s.matches[j] == s.matches[k];
      assert MatchIds(s.matches)[j] == MatchIds(s.matches)[k];
      DenseIdsUnique(MatchIds(s.matches), j, k);
    }
  }

  /** `eventsByMatch(m.id)` for a stored match m is exactly the list of events
      m holds; for an id that names no stored match it is empty. */
  lemma {:induction false} EventsByMatchAgrees(s: Store, matchId: string)
    requires s.Valid()
    ensures s.MatchById(matchId).Some? ==> s.EventsByMatch(matchId) == s.MatchById(matchId).value.events
    ensures s.MatchById(matchId).None? ==> s.EventsByMatch(matchId) == []
  {
  }


  /** A sample session, first half: two teams and a match between them; a
      match against a team that does not exist is refused. */
  method TwoTeamsAndAMatch()
    returns (s: Store, arsenal: Team, chelsea: Team, match1: Result<Match>, badMatch: Result<Match>)
    ensures fresh(s) && s.Valid()
    ensures arsenal == Team("1", "Arsenal") && chelsea == Team("2", "Chelsea")
    ensures match1 == Success(Match("1", arsenal, chelsea, "2024-01-01", []))
    ensures badMatch == Failure("Team not found")
    ensures s.teams == [arsenal, chelsea] && s.matches == [match1.value] && s.events == []
  {
    assert Decimal.Format(1) == "1" && Decimal.Format(2) == "2";
    s := new Store();
    arsenal := s.CreateTeam("Arsenal");
    chelsea := s.CreateTeam("Chelsea");
    assert s.teams == [arsenal, chelsea];
    FindTeamAt(s.teams, 0);
    FindTeamAt(s.teams, 1);
    match1 := s.CreateMatch("1", "2", "2024-01-01");
    assert "3" !in TeamIds(s.teams) by {
      IdsArePositions(s, 0);
      IdsArePositions(s, 1);
      Decimal.FormatInjective(1, 3);
      Decimal.FormatInjective(2, 3);
    }
    badMatch := s.CreateMatch("1", "3", "2024-01-02");
  }

  /** The sample session, second half: a goal by Arsenal in the tenth
      minute of match "1", which `eventsByMatch("1")` then lists on its own;
      `match("7")` finds nothing. */
  method GoalScenario() returns (goal: Result<Event>, byMatch: seq<Event>, unknown: Option<Match>)
    ensures goal == Success(Event("1", "1", 10, Goal, None, Team("1", "Arsenal")))
    ensures |byMatch| == 1 && byMatch[0].minute == 10 && byMatch[0].eventType == Goal
    ensures byMatch[0].team.name == "Arsenal"
    ensures unknown == None
  {
    var s, arsenal, chelsea, match1, badMatch := TwoTeamsAndAMatch();
    assert Decimal.Format(1) == "1";
    assert MatchIds(s.matches) == ["1"];
    FindTeamAt(s.teams, 0);
    goal := s.CreateEvent("1", 10, Goal, None, "1");
    assert s.events == [goal.value];
    byMatch := s.EventsByMatch("1");
    assert byMatch == [goal.value];
    assert "7" !in MatchIds(s.matches) by {
      IdsArePositions(s, 0);
      Decimal.FormatInjective(1, 7);
    }
    unknown := s.MatchById("7");
  }
}
