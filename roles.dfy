/**
 * The server's registry of connections as a value: usernames, handlers and
 * the host / White / Black slots, with the transitions `registerClient`,
 * `unregisterClient`, `assignRoles`, `releaseRoles` and `assignRole` make,
 * and the roster labels `getConnectedUsernamesWithRoles` builds. `H` stands
 * for a connection handler; only its identity matters here.
 */
module Roles {
  import opened Wrappers
  import opened Teams

  /** A slot is empty (Java `null`) or holds one handler. */
  datatype Registry<H> = Registry(
    clients: map<string, H>,
    handlers: set<H>,
    host: Option<H>,
    white: Option<H>,
    black: Option<H>)

  /** `assignRoles`: host if that slot is free; then White if free, else Black if free, else spectator. */
  function JoinRoles<H>(r: Registry<H>, h: H): (r': Registry<H>)
    ensures r'.clients == r.clients && r'.handlers == r.handlers
    ensures r'.host == if r.host.None? then Some(h) else r.host
    ensures r.white.None? ==> r'.white == Some(h) && r'.black == r.black
    ensures r.white.Some? && r.black.None? ==> r'.white == r.white && r'.black == Some(h)
    ensures r.white.Some? && r.black.Some? ==> r'.white == r.white && r'.black == r.black
  {
    var r1 := if r.host.None? then r.(host := Some(h)) else r;
    if r1.white.None? then r1.(white := Some(h))
    else if r1.black.None? then r1.(black := Some(h))
    else r1
  }

  /** The ROLE_ASSIGN letters `assignRoles` sends the newcomer, in order. */
  function JoinLetters<H>(r: Registry<H>): (ls: seq<string>)
    ensures 1 <= |ls| <= 2
    ensures |ls| == 2 <==> r.host.None?
    ensures r.host.None? ==> ls[0] == "H"
    ensures ls[|ls| - 1] in {"W", "B", "S"}
  {
    (if r.host.None? then ["H"] else []) +
    [if r.white.None? then "W" else if r.black.None? then "B" else "S"]
  }

  /** The letters name the slots the newcomer took: "W"/"B" iff it took White/Black. */
  lemma JoinLettersMatchRoles<H>(r: Registry<H>, h: H)
    requires r.white != Some(h) && r.black != Some(h)
    ensures var r' := JoinRoles(r, h); var l := JoinLetters(r)[|JoinLetters(r)| - 1];
      && (l == "W" <==> r'.white == Some(h))
      && (l == "B" <==> r'.black == Some(h))
      && (l == "S" <==> r'.white != Some(h) && r'.black != Some(h))
  {
  }

  /** A registry with nobody in it. */
  function EmptyRegistry<H>(): (r: Registry<H>)
    ensures r.clients == map[] && r.handlers == {}
    ensures r.host.None? && r.white.None? && r.black.None?
  {
    Registry(map[], {}, None, None, None)
  }

  /** `registerClient` for a new username: recorded under the name, added to the handlers, then given roles. */
  function Registered<H>(r: Registry<H>, h: H, u: string): (r': Registry<H>)
    ensures r'.clients == r.clients[u := h] && r'.handlers == r.handlers + {h}
  {
    JoinRoles(r.(clients := r.clients[u := h], handlers := r.handlers + {h}), h)
  }

  /**
   * The first joiner becomes both host and White, the second Black, and
   * every later one a spectator.
   */
  lemma JoinOrder<H>(h1: H, u1: string, h2: H, u2: string, h3: H, u3: string)
    ensures var r1 := Registered(EmptyRegistry(), h1, u1);
      var r2 := Registered(r1, h2, u2);
      var r3 := Registered(r2, h3, u3);
      && r1.host == Some(h1) && r1.white == Some(h1) && r1.black.None?
      && r2.host == Some(h1) && r2.white == Some(h1) && r2.black == Some(h2)
      && r3.host == Some(h1) && r3.white == Some(h1) && r3.black == Some(h2)
      && JoinLetters(EmptyRegistry<H>()) == ["H", "W"]
      && JoinLetters(r1) == ["B"] && JoinLetters(r2) == ["S"]
  {
  }

  /** `releaseRoles`: the slots `h` holds become empty. */
  function Released<H>(r: Registry<H>, h: H): (r': Registry<H>)
    ensures r'.clients == r.clients && r'.handlers == r.handlers
    ensures r'.host != Some(h) && r'.white != Some(h) && r'.black != Some(h)
    ensures r.host != Some(h) ==> r'.host == r.host
    ensures r.white != Some(h) ==> r'.white == r.white
    ensures r.black != Some(h) ==> r'.black == r.black
  {
    Registry(r.clients, r.handlers,
      if r.host == Some(h) then None else r.host,
      if r.white == Some(h) then None else r.white,
      if r.black == Some(h) then None else r.black)
  }

  /** Releasing promotes nobody: every slot afterwards was already held by the same handler. */
  lemma ReleasePromotesNobody<H>(r: Registry<H>, h: H)
    ensures var r' := Released(r, h);
      && (r'.host.Some? ==> r'.host == r.host)
      && (r'.white.Some? ==> r'.white == r.white)
      && (r'.black.Some? ==> r'.black == r.black)
  {
  }

  /**
   * `unregisterClient`: the entry under the handler's username goes (whoever
   * it belongs to), the handler goes, and its slots are released.
   */
  function Unregistered<H>(r: Registry<H>, h: H, name: Option<string>): (r': Registry<H>)
    ensures name.Some? ==> r'.clients == r.clients - {name.value}
    ensures name.None? ==> r'.clients == r.clients
    ensures r'.handlers == r.handlers - {h}
    ensures h !in r'.handlers
  {
    Released(r.(clients := if name.Some? then r.clients - {name.value} else r.clients,
                handlers := r.handlers - {h}), h)
  }

  /** Whether `unregisterClient` removed anything, which is when it broadcasts the new roster. */
  predicate RemovedSomething<H>(r: Registry<H>, h: H, name: Option<string>) {
    (name.Some? && name.value in r.clients) || h in r.handlers
  }

  /** Unregistering a handler that never registered, and has no name, changes nothing and broadcasts nothing. */
  lemma UnregisterStranger<H>(r: Registry<H>, h: H)
    requires h !in r.handlers && r.host != Some(h) && r.white != Some(h) && r.black != Some(h)
    ensures Unregistered(r, h, None) == r
    ensures !RemovedSomething(r, h, None)
  {
    assert r.handlers - {h} == r.handlers;
  }

  /**
   * A second handler joining under a taken name is closed, and its
   * unregistration removes the name's entry: the original user is no longer
   * found by name, though its handler stays.
   */
  lemma DuplicateJoinDropsOriginal<H>(r: Registry<H>, h: H, u: string)
    requires u in r.clients && r.clients[u] != h && r.clients[u] in r.handlers
    ensures var r' := Unregistered(r, h, Some(u));
      u !in r'.clients && r.clients[u] in r'.handlers
    ensures RemovedSomething(r, h, Some(u))
  {
  }

  /** Registering and then leaving under one's own name restores the name table and handler set. */
  lemma RegisterThenUnregister<H>(r: Registry<H>, h: H, u: string)
    requires u !in r.clients && h !in r.handlers
    ensures var r' := Unregistered(Registered(r, h, u), h, Some(u));
      r'.clients == r.clients && r'.handlers == r.handlers
  {
    var r' := Unregistered(Registered(r, h, u), h, Some(u));
    assert r'.clients == r.clients[u := h] - {u};
    assert r'.handlers == (r.handlers + {h}) - {h};
  }

  /**
   * `assignRole(player, team)`: for White or Black, the slot takes the
   * handler registered under `player`, or becomes empty when there is none
   * (and the call then throws); a spectator assignment changes nothing.
   */
  function AssignedRole<H>(r: Registry<H>, player: string, team: Team): (r': Registry<H>)
    ensures r'.clients == r.clients && r'.handlers == r.handlers && r'.host == r.host
    ensures team != White ==> r'.white == r.white
    ensures team != Black ==> r'.black == r.black
    ensures team == White && player in r.clients ==> r'.white == Some(r.clients[player])
    ensures team == Black && player in r.clients ==> r'.black == Some(r.clients[player])
    ensures team != Spectator && player !in r.clients ==> (r'.white.None? || r'.black.None?)
  {
    var holder := if player in r.clients then Some(r.clients[player]) else None;
    match team
    case White => r.(white := holder)
    case Black => r.(black := holder)
    case Spectator => r
  }

  /** `assignRole` throws (a null slot is dereferenced) exactly for a colour and an unknown player. */
  predicate AssignThrows<H>(r: Registry<H>, player: string, team: Team) {
    team != Spectator && player !in r.clients
  }

  /** `attemptMove`'s team of the requester: White if it holds the White slot, else Black if it holds Black, else spectator. */
  function RequesterTeam<H>(r: Registry<H>, h: H): (t: Team)
    ensures t == White <==> r.white == Some(h)
    ensures t == Black <==> r.white != Some(h) && r.black == Some(h)
  {
    if r.white == Some(h) then White
    else if r.black == Some(h) then Black
    else Spectator
  }

  /** The usernames of the slot holders, as `getHostusername` and friends return them. */
  datatype Names = Names(host: Option<string>, white: Option<string>, black: Option<string>)

  /** One roster entry: the username, then " (Black)", " (Host)", " (White)" for the roles it holds, in that order. */
  function Label(u: string, n: Names): (s: string)
    ensures |s| >= |u| && s[..|u|] == u
    ensures |s| == |u| + (if n.black == Some(u) then 8 else 0) + (if n.host == Some(u) then 7 else 0)
      + (if n.white == Some(u) then 8 else 0)
  {
    u + (if n.black == Some(u) then " (Black)" else "")
      + (if n.host == Some(u) then " (Host)" else "")
      + (if n.white == Some(u) then " (White)" else "")
  }

  /** The first joiner, host and White, is listed with both roles, host first. */
  lemma HostAndWhiteLabel(u: string, b: Option<string>)
    requires b != Some(u)
    ensures Label(u, Names(Some(u), Some(u), b)) == u + " (Host) (White)"
  {
  }

  /** The holder of Black who is also host is listed with Black first, then Host. */
  lemma BlackAndHostLabel(u: string, w: Option<string>)
    requires w != Some(u)
    ensures Label(u, Names(Some(u), w, Some(u))) == u + " (Black) (Host)"
  {
  }

  /** A user holding no role is listed by its bare name. */
  lemma PlainLabel(u: string, n: Names)
    requires n.host != Some(u) && n.white != Some(u) && n.black != Some(u)
    ensures Label(u, n) == u
  {
  }

  /** `getConnectedUsernamesWithRoles`: the set of labels of the registered usernames. */
  function Roster(users: set<string>, n: Names): set<string>
  {
    set u | u in users :: Label(u, n)
  }

  /** One more user adds its own label. */
  lemma RosterAdd(users: set<string>, u: string, n: Names)
    ensures Roster(users + {u}, n) == Roster(users, n) + {Label(u, n)}
  {
  }

  /** The roster has at most one label per user (labels of distinct users may coincide). */
  lemma {:induction false} RosterSize(users: set<string>, n: Names)
    ensures |Roster(users, n)| <= |users|
    decreases |users|
  {
    if users != {} {
      var u :| u in users;
      var rest := users - {u};
      RosterSize(rest, n);
      assert users == rest + {u};
      RosterAdd(rest, u, n);
    }
  }
}
