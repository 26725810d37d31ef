# Football event tracker: entity store and resolvers

This project models the data and resolver logic of a small GraphQL server for
football match events. The server keeps three in-memory lists and three id
counters, all starting at 1:

- teams,
- matches, each holding its home team, its away team, a date and the events recorded for it,
- events, each naming its match by id and holding a copy of its team.

Three query resolvers read the lists:

- `matches` returns every match.
- `match(id)` finds one match by id.
- `eventsByMatch(matchId)` filters the events by match id.

Three mutation resolvers check that the ids they are given name stored entities.
Each then issues the next id as the decimal numeral of its counter, builds the
new entity and appends it:

- `createTeam` adds a team.
- `createMatch` adds a match between two stored teams.
- `createEvent` adds an event to the global list and also to its match's own list.

The model has three modules:

- `Decimal` (`decimal.dfy`) covers the textual form of ids. An id is the decimal numeral of the counter, as a template literal writes it for every counter value the store reaches. Reading the numeral back gives the number, so ids are injective in their counter. A numeral never has a leading zero.
- `Entities` (`entities.dfy`) holds the entities as datatypes and the pure operations the resolvers use:
  - `FirstIndex` models `Array.prototype.find` on ids;
  - `FindTeam` and `FindMatch` are the two `find` calls;
  - `EventsOf` models `Array.prototype.filter` on the match id;
  - `DenseIds` states that a list's ids are "1", "2", ….
- `EntityStore` (`store.dfy`) holds the class `Store`:
  - its fields are the three lists as sequences and the three counters as naturals;
  - the predicate `Valid` is the invariant every resolver keeps;
  - the queries are functions and the mutations are methods.

  `CreateMatch` and `CreateEvent` return `Success` with the new entity, or `Failure` with the message the resolver throws. `CreateTeam` cannot fail and returns the team itself. The module also holds the lemmas over sequences that prove the invariant is kept.

`Valid` states the following:

- Each counter is one more than the length of its list.
- The ids of each list are "1", "2", … in creation order.
- Every team a match or event holds is a stored team, and every event names a stored match.
- Every match's own list of events equals the global events filtered by its id, in creation order.

The last point is what the double push in `createEvent` keeps true. In the source, `match.events.push` mutates the match object that `matches` shares. The model writes this as an update of the match at the position the search found. `WithEvent` then restates it as "append to every match with that id", which with unique ids touches exactly one match.

## Model

| member | source | states |
|---|---|---|
| Decimal.Format | index.js:84 | an id is a non-empty string of decimal digits, and it is one character long exactly when the counter is below 10 |
| Decimal.ValueOfFormat | index.js:84 | reading an id back as a decimal number gives the counter that issued it |
| Decimal.FormatInjective | index.js:84 | distinct counter values give distinct ids |
| Decimal.FormatNoLeadingZero | index.js:84 | the id of a positive counter never starts with '0' |
| Decimal.LeadingZeroIsNoId | index.js:78 | a string with a leading zero, such as "01", is no counter's id, because ids are compared as strings |
| Entities.FirstIndex | index.js:78 | the search finds nothing exactly when the id is absent; otherwise it gives a position holding the id with no earlier occurrence, as `find` returns the first match |
| Entities.FindTeam | index.js:89-90 | `teams.find` gives nothing exactly when no team has the id; otherwise it gives a stored team with that id |
| Entities.FindMatch | index.js:104 | `matches.find` gives nothing exactly when no match has the id; otherwise it gives a stored match with that id |
| Entities.EventsOf | index.js:79 | the filter is no longer than its input, and it is empty exactly when no event names the match |
| Entities.EventsOfMembers | index.js:79 | an event is in the filter's result exactly when it is in the input and names the match |
| Entities.EventsOfAppend | index.js:79 | filtering a list with one more event at the end gives the old result, followed by that event when it names the match; this fixes creation order |
| Entities.DenseIdsUnique | index.js:71-73 | in a list of counter-issued ids no id occurs twice |
| Entities.DenseFind | index.js:78 | with counter-issued ids, the search finds position k exactly when the id is the numeral of k + 1 |
| Entities.DenseNextIsFresh | index.js:84 | the next id a counter issues is not among the ids it issued before |
| Entities.FindTeamAt | index.js:89-90 | with counter-issued ids, looking up the numeral of k + 1 gives the team at position k |
| Entities.FindMatchAt | index.js:104 | with counter-issued ids, looking up the numeral of k + 1 gives the match at position k |
| EntityStore.AddTeamKeepsConsistent | index.js:84-85 | appending a team with the next team id keeps the store invariant |
| EntityStore.AddMatchKeepsConsistent | index.js:93-100 | appending a match with the next match id, two stored teams and no events keeps the store invariant, because no stored event can name the new id |
| EntityStore.NextEventIsNew | index.js:109 | an event with the next event id is not a stored event, and appending it keeps event ids dense |
| EntityStore.RecordEventKeepsAgreement | index.js:116-117 | after both pushes, the match at the found position is the only match with that id, and every match's events still equal the filtered global events |
| EntityStore.RecordedEvent | index.js:108-117 | the recorded event is new, the one-position update equals appending to every match with that id, and the event ends the filtered list of its match |
| EntityStore.AddEventKeepsReferences | index.js:105-117 | after recording an event with a stored team at a stored match, every reference still resolves |
| EntityStore.AddEventKeepsConsistent | index.js:108-117 | recording an event with the next event id and a stored team, at the match it names, keeps the store invariant |
| EntityStore.Store.constructor | index.js:67-73 | the store starts with empty lists and every counter at 1, and the invariant holds |
| EntityStore.Store.AllMatches | index.js:77 | `matches` lists one match per issued match id, the match at position i has id i + 1, and each match's events are the filtered global events |
| EntityStore.Store.MatchById | index.js:78 | `match(id)` gives nothing exactly when no stored match has the id, and never fails; otherwise it gives the stored match with that id |
| EntityStore.Store.EventsByMatch | index.js:79 | `eventsByMatch` gives exactly the stored events that name the match, and never fails |
| EntityStore.Store.CreateTeam | index.js:83-87 | the new team has the old counter's numeral as id and the given name; it is appended; the counter goes up by one; nothing else changes; the invariant is kept |
| EntityStore.Store.CreateMatch | index.js:88-102 | fails with "Team not found" exactly when either team id is not stored, and then changes nothing; otherwise it appends and returns a match with the next id, the two stored teams, the date and no events, and raises the counter by one; the invariant is kept |
| EntityStore.Store.Record | index.js:109-117 | the event is appended to the global list and to the match at the found position, the event counter goes up by one, and the invariant is kept |
| EntityStore.Store.CreateEvent | index.js:103-119 | fails with "Match or Team not found" exactly when the match id or the team id is not stored, and then changes nothing. Otherwise it returns a new event with the next id, the given fields and the stored team, and appends it to the global events and to the events of the matches with that id. `eventsByMatch` then gives the old list followed by the new event. Teams and the other counters are unchanged, and the invariant is kept |
| EntityStore.IdsArePositions | index.js:71-73 | in a valid store, the entity at position i of each list has id i + 1: no gaps, no repeats |
| EntityStore.MatchByIdFinds | index.js:78 | `match(id)` gives the match at position k exactly when the id is the numeral of k + 1 |
| EntityStore.EventsByMatchAgrees | index.js:77-79 | for a stored match, `eventsByMatch` equals the events the match holds; for an unknown id it is empty |
| EntityStore.TwoTeamsAndAMatch | index.js:83-102 | creating "Arsenal" then "Chelsea" gives ids "1" and "2"; a match between them gets id "1", holds both full team records and has no events; a match against team "3" fails with "Team not found" |
| EntityStore.GoalScenario | index.js:78-79 | after that, a goal by team "1" in minute 10 of match "1" is event "1" with Arsenal as its team; `eventsByMatch("1")` lists it alone; `match("7")` gives nothing |

## Left out

- Server start-up (`startServer`, Express, Apollo), the HTTP endpoint and serialisation are not part of this model. The GraphQL schema text is used only for the shapes of the entities.
- Input validation by the schema happens before a resolver runs and is not modelled. This covers required fields, enum values and the 32-bit range of `Int`, so `minute` is an unbounded `int`. The schema field `type` of an event is called `eventType` here.
- The object spread in `{ id, ...input }` is not modelled: the team input holds only `name`, so the spread cannot override the id.
- Thrown errors are modelled as a `Failure` carrying the message. How the server formats them for the client is left out.
- JavaScript truthiness in `!homeTeam || !awayTeam` is modelled as "not found", since stored entities are objects and always truthy.
- Object identity is not modelled. Teams are shared objects in the source and values here. Nothing ever changes a team, so the two agree. `createMatch` returns the same match object that a later `match.events.push` extends (index.js:100-101, 117). The model returns a value with `events == []` instead. A client cannot tell the difference, because GraphQL resolves a mutation field's whole selection before it runs the next field.
- Counters are unbounded naturals. In the source they are JavaScript Numbers: `counter++` stops growing at 2^53, and `${n}` switches to exponent notation ("1e+21") from 10^21. Neither bound is reachable within memory, so id uniqueness (`DenseIdsUnique`, `IdsArePositions`) is proved without it.
