// The bounded nonce cache that guards the handshake (src/security.rs).

module ReplaySpec {
  const MAX_REPLAY_ENTRIES: nat := 8 * 1024
  const MAX_REPLAY_ENTRIES_PER_CLIENT: nat := 64
  const MAX_PENDING_REPLAYS_PER_CLIENT: nat := 4
  const REPLAY_TTL: int := 180_000
  const PENDING_REPLAY_TTL: int := 6_000

  datatype Key = Key(client: nat, nonce: nat)
  datatype Entry = Entry(expires: int, confirmed: bool)
  type State = map<Key, Entry>

  function Live(s: State, now: int): State {
    map k | k in s && s[k].expires > now :: s[k]
  }

  function OfClient(s: State, client: nat): set<Key> {
    set k | k in s && k.client == client
  }

  function Unconfirmed(s: State, client: nat): set<Key> {
    set k | k in s && k.client == client && !s[k].confirmed
  }

  function Reserve(s: State, key: Key, now: int): (State, bool) {
    var live := Live(s, now);
    if key in live || |OfClient(live, key.client)| >= MAX_REPLAY_ENTRIES_PER_CLIENT ||
       |Unconfirmed(live, key.client)| >= MAX_PENDING_REPLAYS_PER_CLIENT || |live| >= MAX_REPLAY_ENTRIES
    then (live, false)
    else (live[key := Entry(now + PENDING_REPLAY_TTL, false)], true)
  }

  function Confirm(s: State, key: Key, now: int): (State, bool) {
    var live := Live(s, now);
    if key !in live then (live, false) else (live[key := Entry(now + REPLAY_TTL, true)], true)
  }
}

module ReplayObject {
  import opened ReplaySpec
  import Spec = ReplaySpec

  class ReplayCache {
    var entries: State

    constructor ()
      ensures entries == map[]
    {
      entries := map[];
    }

    method Reserve(key: Key, now: int) returns (reserved: bool)
      modifies this
      ensures (entries, reserved) == Spec.Reserve(old(entries), key, now)
    {
      entries := map k | k in entries && entries[k].expires > now :: entries[k];
      if key in entries {
        return false;
      }
      var clientEntries := set k | k in entries && k.client == key.client;
      if |clientEntries| >= MAX_REPLAY_ENTRIES_PER_CLIENT {
        return false;
      }
      var pendingEntries := set k | k in entries && k.client == key.client && !entries[k].confirmed;
      if |pendingEntries| >= MAX_PENDING_REPLAYS_PER_CLIENT {
        return false;
      }
      if |entries| >= MAX_REPLAY_ENTRIES {
        return false;
      }
      entries := entries[key := Entry(now + PENDING_REPLAY_TTL, false)];
      return true;
    }

    method Confirm(key: Key, now: int) returns (confirmed: bool)
      modifies this
      ensures (entries, confirmed) == Spec.Confirm(old(entries), key, now)
    {
      entries := map k | k in entries && entries[k].expires > now :: entries[k];
      if key !in entries {
        return false;
      }
      entries := entries[key := entries[key].(confirmed := true)];
      entries := entries[key := entries[key].(expires := now + REPLAY_TTL)];
      assert entries == Live(old(entries), now)[key := Entry(now + REPLAY_TTL, true)];
      return true;
    }
  }
}

module ReplayRuns {
  import opened Common
  import opened ReplaySpec

  /** One call on the cache: `reserve` tells `reserve` from `confirm`. */
  datatype Call = Call(reserve: bool, key: Key, now: int, before: State, after: State, ok: bool)

  predicate CallAt(calls: seq<Call>, i: nat)
    requires i < |calls|
  {
    var c := calls[i];
    && c.before == (if i == 0 then map[] else calls[i - 1].after)
    && (c.after, c.ok) == (if c.reserve then Reserve(c.before, c.key, c.now) else Confirm(c.before, c.key, c.now))
  }

  /** Calls of any clients in any order, from an empty cache, under a clock that does not run backwards. */
  ghost predicate Valid(calls: seq<Call>) {
    && (forall i: nat :: i < |calls| ==> CallAt(calls, i))
    && (forall i, j :: 0 <= i < j < |calls| ==> calls[i].now <= calls[j].now)
  }

  ghost predicate Bounded(s: State) {
    && |s| <= MAX_REPLAY_ENTRIES
    && (forall c :: |OfClient(s, c)| <= MAX_REPLAY_ENTRIES_PER_CLIENT)
    && (forall c :: |Unconfirmed(s, c)| <= MAX_PENDING_REPLAYS_PER_CLIENT)
  }

  lemma Shrinks(small: State, large: State)
    requires small.Keys <= large.Keys && Bounded(large)
    requires forall k :: k in small && !small[k].confirmed ==> !large[k].confirmed
    ensures Bounded(small)
  {
    SubsetCardinality(small.Keys, large.Keys);
    forall c
      ensures |OfClient(small, c)| <= MAX_REPLAY_ENTRIES_PER_CLIENT
      ensures |Unconfirmed(small, c)| <= MAX_PENDING_REPLAYS_PER_CLIENT
    {
      SubsetCardinality(OfClient(small, c), OfClient(large, c));
      SubsetCardinality(Unconfirmed(small, c), Unconfirmed(large, c));
    }
  }

  lemma AddedTo(s: State, key: Key, entry: Entry, c: nat)
    requires key !in s && !entry.confirmed
    ensures OfClient(s[key := entry], c) == OfClient(s, c) + if c == key.client then {key} else {}
    ensures Unconfirmed(s[key := entry], c) == Unconfirmed(s, c) + if c == key.client then {key} else {}
  {
  }

  lemma Inserts(s: State, key: Key, entry: Entry)
    requires Bounded(s) && key !in s && |s| < MAX_REPLAY_ENTRIES
    requires |OfClient(s, key.client)| < MAX_REPLAY_ENTRIES_PER_CLIENT
    requires |Unconfirmed(s, key.client)| < MAX_PENDING_REPLAYS_PER_CLIENT && !entry.confirmed
    ensures Bounded(s[key := entry])
  {
    hide OfClient, Unconfirmed;
    var t := s[key := entry];
    forall c: nat
      ensures |OfClient(t, c)| <= MAX_REPLAY_ENTRIES_PER_CLIENT
      ensures |Unconfirmed(t, c)| <= MAX_PENDING_REPLAYS_PER_CLIENT
    {
      AddedTo(s, key, entry, c);
    }
  }

  /** The cache keeps its three bounds after every call of every run. */
  lemma {:induction false} CacheStaysBounded(calls: seq<Call>, i: nat)
    requires Valid(calls) && i < |calls|
    ensures Bounded(calls[i].after)
  {
    assert CallAt(calls, i);
    var c := calls[i];
    if i > 0 {
      CacheStaysBounded(calls, i - 1);
    } else {
      assert forall c :: OfClient(map[], c) == {} && Unconfirmed(map[], c) == {};
    }
    var live := Live(c.before, c.now);
    Shrinks(live, c.before);
    if c.ok && c.reserve {
      Inserts(live, c.key, c.after[c.key]);
    } else {
      Shrinks(c.after, live);
    }
  }

  /** `key` has an entry that lives until `until`, unless that moment has come. */
  predicate Held(s: State, key: Key, until: int, now: int) {
    now >= until || (key in s && s[key].expires >= until)
  }

  /** No call on any key evicts or shortens a live entry. */
  lemma {:induction false} HeldAlong(calls: seq<Call>, i: nat, j: nat, key: Key, until: int)
    requires Valid(calls) && i < j < |calls|
    requires Held(calls[i].after, key, until, calls[i].now) && until <= calls[i].now + REPLAY_TTL
    ensures Held(calls[j].after, key, until, calls[j].now)
    ensures calls[j].key == key && calls[j].now < until ==> calls[j].ok == !calls[j].reserve
  {
    assert CallAt(calls, j);
    if j == i + 1 {
    } else {
      HeldAlong(calls, i, j - 1, key, until);
    }
  }

  /** When the entry that a successful call leaves behind lapses. */
  function Until(c: Call): int {
    c.now + if c.reserve then 6_000 else 180_000
  }

  /** A nonce is accepted again only 6 s after it was reserved, and 3 minutes after it was confirmed. */
  lemma ReservationsAreSeparated(calls: seq<Call>, i: nat, j: nat)
    requires Valid(calls) && i < j < |calls| && calls[i].key == calls[j].key
    requires calls[i].ok && calls[j].reserve && calls[j].ok
    ensures calls[j].now >= Until(calls[i])
  {
    assert CallAt(calls, i);
    HeldAlong(calls, i, j, calls[i].key, Until(calls[i]));
  }

  /** Whatever other clients do meanwhile, a reservation can be confirmed while it lives. */
  lemma ReservationCanBeConfirmed(calls: seq<Call>, i: nat, j: nat)
    requires Valid(calls) && i < j < |calls| && calls[i].key == calls[j].key
    requires calls[i].ok && !calls[j].reserve && calls[j].now < Until(calls[i])
    ensures calls[j].ok
  {
    assert CallAt(calls, i);
    HeldAlong(calls, i, j, calls[i].key, Until(calls[i]));
  }

  /** The call whose entry `key` has after call `i`. */
  lemma {:induction false} Source(calls: seq<Call>, i: nat, key: Key) returns (r: nat)
    requires Valid(calls) && i < |calls| && key in calls[i].after
    ensures r <= i && calls[r].key == key && calls[r].ok && calls[i].after[key].expires == Until(calls[r])
    ensures calls[i].after[key].confirmed == !calls[r].reserve
    ensures forall m: nat :: r < m <= i && calls[m].key == key ==> !calls[m].ok
  {
    assert CallAt(calls, i);
    if calls[i].key == key && calls[i].ok {
      r := i;
    } else {
      r := Source(calls, i - 1, key);
    }
  }

  /** `confirm` says yes exactly when the last accepted call on that nonce has not lapsed. */
  lemma ConfirmationFollowsReservation(calls: seq<Call>, j: nat)
    requires Valid(calls) && j < |calls| && !calls[j].reserve
    ensures calls[j].ok <==> exists r: nat :: r < j && calls[r].key == calls[j].key && calls[r].ok &&
                                              calls[j].now < Until(calls[r])
  {
    assert CallAt(calls, j);
    if calls[j].ok {
      var r := Source(calls, j - 1, calls[j].key);
    } else {
      forall r: nat | r < j && calls[r].key == calls[j].key && calls[r].ok
        ensures calls[j].now >= Until(calls[r])
      {
        if calls[j].now < Until(calls[r]) {
          ReservationCanBeConfirmed(calls, r, j);
        }
      }
    }
  }

  /** The call on its key was accepted, has not lapsed at `now`, and no call before `j` on that key was accepted
      since. */
  predicate Stands(calls: seq<Call>, r: nat, j: nat, now: int)
    requires j <= |calls|
  {
    && r < j && calls[r].ok && now < Until(calls[r])
    && forall m: nat :: r < m < j && calls[m].key == calls[r].key ==> !calls[m].ok
  }

  /** The nonces of a client that are reserved or confirmed when call `j` comes. */
  function Taken(calls: seq<Call>, j: nat, client: nat): set<Key>
    requires j < |calls|
  {
    set r: nat | r < j && Stands(calls, r, j, calls[j].now) && calls[r].key.client == client :: calls[r].key
  }

  /** Those that are reserved only. */
  function Waiting(calls: seq<Call>, j: nat, client: nat): set<Key>
    requires j < |calls|
  {
    set r: nat | r < j && Stands(calls, r, j, calls[j].now) && calls[r].key.client == client && calls[r].reserve
      :: calls[r].key
  }

  /** The nonces of all clients. */
  function AllTaken(calls: seq<Call>, j: nat): set<Key>
    requires j < |calls|
  {
    set r: nat | r < j && Stands(calls, r, j, calls[j].now) :: calls[r].key
  }

  /** The entries that are alive when call `j` comes are those of the calls that stand. */
  lemma LiveEntry(calls: seq<Call>, j: nat, key: Key)
    requires Valid(calls) && j < |calls|
    ensures var live := Live(calls[j].before, calls[j].now);
            && (key in live <==> exists r: nat :: r < j && Stands(calls, r, j, calls[j].now) && calls[r].key == key)
            && (key in live && !live[key].confirmed <==>
                  exists r: nat ::
                    r < j && Stands(calls, r, j, calls[j].now) && calls[r].key == key && calls[r].reserve)
  {
    assert CallAt(calls, j);
    var now, live := calls[j].now, Live(calls[j].before, calls[j].now);
    if key in live {
      var r := Source(calls, j - 1, key);
      assert Stands(calls, r, j, now);
      assert forall q: nat :: q < j && Stands(calls, q, j, now) && calls[q].key == key ==> q == r;
    }
    forall r: nat | r < j && Stands(calls, r, j, now) && calls[r].key == key ensures key in live {
      StandingIsLive(calls, r, j);
    }
  }

  lemma StandingIsLive(calls: seq<Call>, r: nat, j: nat)
    requires Valid(calls) && j < |calls| && Stands(calls, r, j, calls[j].now)
    ensures calls[r].key in Live(calls[j].before, calls[j].now)
  {
    assert CallAt(calls, r) && CallAt(calls, j);
    if r < j - 1 {
      HeldAlong(calls, r, j - 1, calls[r].key, Until(calls[r]));
    }
  }

  /** A nonce is reserved exactly when no accepted call on it stands, and there is room: of the nonces that stand
      fewer than 64 belong to the client, fewer than 4 of these wait for their confirmation, and there are fewer than
      8192 in all. */
  lemma ReservationExactly(calls: seq<Call>, j: nat)
    requires Valid(calls) && j < |calls| && calls[j].reserve
    ensures var key := calls[j].key;
            calls[j].ok <==>
              && key !in AllTaken(calls, j) && |Taken(calls, j, key.client)| < 64
              && |Waiting(calls, j, key.client)| < 4 && |AllTaken(calls, j)| < 8192
  {
    hide Stands;
    assert CallAt(calls, j);
    var client, live := calls[j].key.client, Live(calls[j].before, calls[j].now);
    forall key {
      LiveEntry(calls, j, key);
    }
    assert live.Keys == AllTaken(calls, j) && |live| == |live.Keys|;
    assert OfClient(live, client) == Taken(calls, j, client);
    assert Unconfirmed(live, client) == Waiting(calls, j, client);
  }
}
