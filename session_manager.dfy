/**
 * The session registry of src/session/manager.cpp: id allocation, the
 * most-recently-used order of sessions, switching, listing and the
 * quit check. The editor connection, option loading, window and renderer
 * set-up are outside the model: `New` is told whether they succeeded.
 */
module Session {
  import opened Wrappers
  import opened Decimal
  import Sorting

  datatype SessionState = SessionState(id: int, name: string, connected: bool, reattached: bool)

  datatype ListEntry = ListEntry(id: int, name: string)

  /** How the external steps of `New` (connect, attach, guifont) ended. */
  datatype Setup = SetupOk | ConnectFailed | SetupFailed(message: string)

  /** Index of the first occurrence of x in s (`std::ranges::find`). */
  function IndexOf(s: seq<int>, x: int): (i: nat)
    requires x in s
    ensures i < |s| && s[i] == x
    ensures forall k :: 0 <= k < i ==> s[k] != x
  {
    if s[0] == x then 0 else 1 + IndexOf(s[1..], x)
  }

  /** Erases the first occurrence of x and pushes x to the front; no change when x is absent. */
  function MoveToFront(s: seq<int>, x: int): seq<int> {
    if x in s then [x] + s[..IndexOf(s, x)] + s[IndexOf(s, x) + 1..] else s
  }

  /** s without any occurrence of x, in order. */
  function Without(s: seq<int>, x: int): seq<int> {
    if s == [] then [] else (if s[0] == x then [] else [s[0]]) + Without(s[1..], x)
  }

  ghost predicate NoDuplicates(s: seq<int>) {
    forall i, j :: 0 <= i < j < |s| ==> s[i] != s[j]
  }

  lemma {:induction false} WithoutConcat(a: seq<int>, b: seq<int>, x: int)
    ensures Without(a + b, x) == Without(a, x) + Without(b, x)
  {
    if a == [] {
      assert a + b == b;
    } else {
      var h := if a[0] == x then [] else [a[0]];
      var rest, tail := Without(a[1..], x), Without(b, x);
      assert Without(a + b, x) == h + (rest + tail) by {
        assert (a + b)[0] == a[0] && (a + b)[1..] == a[1..] + b;
        WithoutConcat(a[1..], b, x);
      }
      assert h + (rest + tail) == (h + rest) + tail;
    }
  }

  /** Moving x to the front keeps the relative order of every other session. */
  lemma MoveToFrontKeepsOthersOrder(s: seq<int>, x: int)
    ensures Without(MoveToFront(s, x), x) == Without(s, x)
  {
    if x in s {
      var i := IndexOf(s, x);
      assert s == s[..i] + [x] + s[i + 1..];
      WithoutConcat([x], s[..i] + s[i + 1..], x);
      WithoutConcat(s[..i], s[i + 1..], x);
      WithoutConcat(s[..i] + [x], s[i + 1..], x);
      WithoutConcat(s[..i], [x], x);
      assert [x] + s[..i] + s[i + 1..] == [x] + (s[..i] + s[i + 1..]);
    }
  }

  /** Where each entry of the order lands when x moves to the front. */
  lemma MoveToFrontAt(s: seq<int>, x: int)
    requires x in s
    ensures var t, i := MoveToFront(s, x), IndexOf(s, x);
      && |t| == |s| && t[0] == x
      && (forall b :: 1 <= b <= i ==> t[b] == s[b - 1])
      && (forall b :: i < b < |s| ==> t[b] == s[b])
  {
    var i, t := IndexOf(s, x), MoveToFront(s, x);
    var before, after := s[..i], s[i + 1..];
    assert t == [x] + before + after;
    forall k | 1 <= k <= i ensures t[k] == s[k - 1] {
      assert t[k] == before[k - 1];
    }
    forall k | i < k < |s| ensures t[k] == s[k] {
      assert t[k] == after[k - 1 - i];
    }
  }

  /** Moving to the front keeps an order free of duplicates. */
  lemma MoveToFrontKeepsDistinct(s: seq<int>, x: int)
    requires NoDuplicates(s)
    ensures NoDuplicates(MoveToFront(s, x))
  {
    if x in s {
      var i, t := IndexOf(s, x), MoveToFront(s, x);
      MoveToFrontAt(s, x);
      forall a, b | 0 <= a < b < |t| ensures t[a] != t[b] {
        var sa := if a == 0 then i else if a <= i then a - 1 else a;
        var sb := if b <= i then b - 1 else b;
        assert t[a] == s[sa] && t[b] == s[sb] && sa != sb;
      }
    }
  }

  /** Moving to the front is a permutation that keeps the order free of duplicates. */
  lemma MoveToFrontPermutes(s: seq<int>, x: int)
    ensures multiset(MoveToFront(s, x)) == multiset(s)
    ensures NoDuplicates(s) ==> NoDuplicates(MoveToFront(s, x))
    ensures x in s ==> MoveToFront(s, x)[0] == x
    ensures forall y :: y in MoveToFront(s, x) <==> y in s
  {
    if x in s {
      var i := IndexOf(s, x);
      var a, b := s[..i], s[i + 1..];
      assert s == a + [x] + b;
      assert multiset([x] + a + b) == multiset(a + [x] + b);
    }
    if NoDuplicates(s) {
      MoveToFrontKeepsDistinct(s, x);
    }
    forall y ensures y in MoveToFront(s, x) <==> y in s {
      assert y in MoveToFront(s, x) <==> y in multiset(MoveToFront(s, x));
    }
  }

  /** In a duplicate-free order, switching to the second entry swaps the first two. */
  lemma MoveSecondToFront(s: seq<int>)
    requires |s| >= 2 && NoDuplicates(s)
    ensures MoveToFront(s, s[1]) == [s[1], s[0]] + s[2..]
  {
    assert IndexOf(s, s[1]) == 1;
  }

  /** Reverse order (`std::ranges::reverse`). */
  function Reversed<T>(s: seq<T>): (r: seq<T>)
    ensures |r| == |s|
    ensures forall i :: 0 <= i < |s| ==> r[i] == s[|s| - 1 - i]
  {
    if s == [] then [] else Reversed(s[1..]) + [s[0]]
  }

  lemma {:induction false} ReversedPermutes<T>(s: seq<T>)
    ensures multiset(Reversed(s)) == multiset(s)
  {
    if s != [] {
      ReversedPermutes(s[1..]);
      assert s == [s[0]] + s[1..];
    }
  }

  /** The (id, name) list entries of the sessions in `order`. */
  function EntriesOf(order: seq<int>, sessions: map<int, SessionState>): (es: seq<ListEntry>)
    requires forall i :: 0 <= i < |order| ==> order[i] in sessions
    ensures |es| == |order|
    ensures forall i :: 0 <= i < |es| ==> es[i] == ListEntry(order[i], sessions[order[i]].name)
  {
    if order == [] then [] else [ListEntry(order[0], sessions[order[0]].name)] + EntriesOf(order[1..], sessions)
  }

  /** The `std::sort` order of entries by id: `a.id < b.id`, or `a.id > b.id` when reversed. */
  function IdOrder(reverse: bool): (ListEntry, ListEntry) -> bool {
    (a: ListEntry, b: ListEntry) => if reverse then a.id >= b.id else a.id <= b.id
  }

  /** The `std::sort` order of entries by name, `<` on strings, reversed on request. */
  function NameOrder(reverse: bool): (ListEntry, ListEntry) -> bool {
    (a: ListEntry, b: ListEntry) =>
      if reverse then !Sorting.LexLess(a.name, b.name) else !Sorting.LexLess(b.name, a.name)
  }

  lemma IdOrderIsTotalPreorder(reverse: bool)
    ensures Sorting.TotalPreorder(IdOrder(reverse))
  {
  }

  lemma NameOrderIsTotalPreorder(reverse: bool)
    ensures Sorting.TotalPreorder(NameOrder(reverse))
  {
    Sorting.KeyOrderIsTotalPreorder((e: ListEntry) => e.name, reverse, NameOrder(reverse));
  }

  function NewSession(id: int, name: string, setup: Setup): SessionState {
    SessionState(id, if name == [] then IntToString(id) else name, setup != ConnectFailed, false)
  }

  /**
   * Map keys are the sessions' ids and lie below the next id; the order
   * lists live sessions, each once.
   */
  ghost predicate Registry(currId: int, sessions: map<int, SessionState>, order: seq<int>) {
    && (forall k :: k in sessions ==> sessions[k].id == k && k < currId)
    && (forall i :: 0 <= i < |order| ==> order[i] in sessions)
    && NoDuplicates(order)
  }

  /**
   * Registering a session under the next id keeps the registry valid,
   * whether or not the new id is also put at the front of the order.
   */
  lemma Register(currId: int, sessions: map<int, SessionState>, order: seq<int>, s: SessionState)
    requires Registry(currId, sessions, order) && s.id == currId
    ensures Registry(currId + 1, sessions[currId := s], order)
    ensures Registry(currId + 1, sessions[currId := s], [currId] + order)
  {
    var t := [currId] + order;
    forall i, j | 0 <= i < j < |t| ensures t[i] != t[j] {
      assert t[j] == order[j - 1] && order[j - 1] in sessions;
    }
  }

  class SessionManager {
    var currId: int
    var sessions: map<int, SessionState>
    /** Session ids, most recently used first; the front is the current session. */
    var sessionsOrder: seq<int>

    /**
     * Map keys are the sessions' ids and lie below the next id; the order
     * lists live sessions, each once.
     */
    ghost predicate Valid()
      reads this
    {
      Registry(currId, sessions, sessionsOrder)
    }

    constructor (firstId: int)
      ensures Valid() && currId == firstId && sessions == map[] && sessionsOrder == []
    {
      currId := firstId;
      sessions := map[];
      sessionsOrder := [];
    }

    /** `CurrSession()`: the front of the order, or none. */
    function CurrSession(): (r: Option<int>)
      reads this
      ensures r.Some? <==> |sessionsOrder| > 0
      ensures r.Some? ==> r.value == sessionsOrder[0]
    {
      if |sessionsOrder| == 0 then None else Some(sessionsOrder[0])
    }

    /**
     * Allocates the next id, registers the session under it (named by the
     * decimal id when no name is given) and puts it at the front of the order,
     * then steps back with `Prev` unless `switchTo`.
     */
    method New(name: string, switchTo: bool, setup: Setup) returns (r: Result<int, string>)
      modifies this
      ensures currId == old(currId) + 1
      ensures old(currId) in old(sessions) ==>
        && r == Err("Session with id " + IntToString(old(currId)) + " already exists")
        && sessions == old(sessions) && sessionsOrder == old(sessionsOrder)
      ensures old(currId) !in old(sessions) && setup != SetupOk ==>
        && r == (if setup == ConnectFailed then Err("Failed to connect to nvim") else Err(setup.message))
        && sessions == old(sessions)[old(currId) := NewSession(old(currId), name, setup)]
        && sessionsOrder == old(sessionsOrder)
      ensures old(currId) !in old(sessions) && setup == SetupOk ==> r == Ok(old(currId))
      ensures old(Valid()) && setup == SetupOk ==>
        var id, o := old(currId), old(sessionsOrder);
        var added := old(sessions)[id := NewSession(id, name, setup)];
        if switchTo || |o| == 0 then
          sessions == added && sessionsOrder == [id] + o
        else
          && sessions == added[o[0] := added[o[0]].(reattached := true)]
          && sessionsOrder == [o[0], id] + o[1..]
      ensures old(Valid()) ==> Valid()
    {
      ghost var wasValid := Valid();
      var id := currId;
      if wasValid && id !in sessions {
        Register(currId, sessions, sessionsOrder, NewSession(id, name, setup));
      }
      currId := currId + 1;
      if id in sessions {
        return Err("Session with id " + IntToString(id) + " already exists");
      }
      sessions := sessions[id := NewSession(id, name, setup)];
      if setup == ConnectFailed {
        return Err("Failed to connect to nvim");
      }
      if setup.SetupFailed? {
        return Err(setup.message);
      }
      sessionsOrder := [id] + sessionsOrder;
      if !switchTo {
        var _ := Prev();
      }
      r := Ok(id);
    }

    /** Disconnects session `id` (0: the current session); false when it does not exist. */
    method Kill(id: int) returns (ok: bool)
      requires id == 0 ==> |sessionsOrder| > 0
      modifies this`sessions
      ensures var target := if id == 0 then sessionsOrder[0] else id;
        && ok == (target in old(sessions))
        && sessions == if ok then old(sessions)[target := old(sessions)[target].(connected := false)]
                       else old(sessions)
      ensures old(Valid()) ==> Valid()
    {
      var target := id;
      if target == 0 {
        target := sessionsOrder[0];
      }
      if target !in sessions {
        return false;
      }
      sessions := sessions[target := sessions[target].(connected := false)];
      ok := true;
    }

    /**
     * Makes session `id` current: marks it reattached and moves it to the
     * front of the order. An unknown id changes nothing.
     */
    method Switch(id: int) returns (ok: bool)
      modifies this`sessions, this`sessionsOrder
      ensures ok == (id in old(sessions))
      ensures !ok ==> sessions == old(sessions) && sessionsOrder == old(sessionsOrder)
      ensures ok ==> sessions == old(sessions)[id := old(sessions)[id].(reattached := true)]
      ensures ok ==> sessionsOrder == MoveToFront(old(sessionsOrder), id)
      ensures old(Valid()) ==> Valid()
    {
      if id !in sessions {
        return false;
      }
      sessions := sessions[id := sessions[id].(reattached := true)];
      var i := 0;
      while i < |sessionsOrder| && sessionsOrder[i] != id
        invariant 0 <= i <= |sessionsOrder|
        invariant forall k :: 0 <= k < i ==> sessionsOrder[k] != id
      {
        i := i + 1;
      }
      MoveToFrontPermutes(sessionsOrder, id);
      if i < |sessionsOrder| {
        assert IndexOf(sessionsOrder, id) == i;
        sessionsOrder := [id] + sessionsOrder[..i] + sessionsOrder[i + 1..];
      }
      ok := true;
    }

    /** Switches to the previously used session (the second in the order), if any. */
    method Prev() returns (ok: bool)
      modifies this`sessions, this`sessionsOrder
      ensures ok == (|old(sessionsOrder)| >= 2)
      ensures !ok ==> sessions == old(sessions) && sessionsOrder == old(sessionsOrder)
      ensures ok ==>
        var t := old(sessionsOrder)[1];
        if t in old(sessions) then
          && sessions == old(sessions)[t := old(sessions)[t].(reattached := true)]
          && sessionsOrder == MoveToFront(old(sessionsOrder), t)
        else sessions == old(sessions) && sessionsOrder == old(sessionsOrder)
      ensures ok && old(Valid()) ==>
        sessionsOrder == [old(sessionsOrder)[1], old(sessionsOrder)[0]] + old(sessionsOrder)[2..]
      ensures old(Valid()) ==> Valid()
    {
      if |sessionsOrder| < 2 {
        return false;
      }
      if Valid() {
        MoveSecondToFront(sessionsOrder);
      }
      var _ := Switch(sessionsOrder[1]);
      ok := true;
    }

    /** The (id, name) entries in most-recently-used order. */
    function Entries(): seq<ListEntry>
      reads this
      requires Valid()
    {
      EntriesOf(sessionsOrder, sessions)
    }

    /**
     * The sessions sorted by "id" or "name" (ascending, or descending when
     * `reverse`), or by "time" (most recent first, oldest first when
     * `reverse`); any other key is an error.
     */
    method List(sort: string, reverse: bool) returns (r: Result<seq<ListEntry>, string>)
      requires Valid()
      ensures r.Err? <==> sort !in {"id", "name", "time"}
      ensures r.Err? ==> r.error == "Unknown sort option: " + sort
      ensures r.Ok? ==> multiset(r.value) == multiset(Entries())
      ensures sort == "id" && r.Ok? ==> Sorting.SortedBy(r.value, IdOrder(reverse))
      ensures sort == "name" && r.Ok? ==> Sorting.SortedBy(r.value, NameOrder(reverse))
      ensures sort == "time" && r.Ok? ==> r.value == if reverse then Reversed(Entries()) else Entries()
    {
      var entries := Entries();
      if sort == "id" {
        assert sort in {"id", "name", "time"};
        IdOrderIsTotalPreorder(reverse);
        var sorted := Sorting.InsertionSort(entries, IdOrder(reverse));
        r := Ok(sorted);
      } else if sort == "name" {
        assert sort in {"id", "name", "time"};
        NameOrderIsTotalPreorder(reverse);
        var sorted := Sorting.InsertionSort(entries, NameOrder(reverse));
        r := Ok(sorted);
      } else if sort == "time" {
        assert sort in {"id", "name", "time"};
        ReversedPermutes(entries);
        r := Ok(if reverse then Reversed(entries) else entries);
      } else {
        r := Err("Unknown sort option: " + sort);
      }
    }

    /**
     * When the current session has disconnected, drops it and makes the next
     * one current; true when no session is left.
     */
    method ShouldQuit() returns (quit: bool)
      requires Valid() && |sessionsOrder| > 0
      modifies this`sessions, this`sessionsOrder
      ensures Valid()
      ensures var curr := old(sessionsOrder)[0];
        && quit == (!old(sessions)[curr].connected && |old(sessionsOrder)| == 1)
        && (old(sessions)[curr].connected ==>
              sessions == old(sessions) && sessionsOrder == old(sessionsOrder))
        && (!old(sessions)[curr].connected ==>
              && sessionsOrder == old(sessionsOrder)[1..]
              && sessions.Keys == old(sessions).Keys - {curr}
              && (forall k :: k in sessions && (|sessionsOrder| == 0 || k != sessionsOrder[0]) ==>
                    sessions[k] == old(sessions)[k])
              && (|sessionsOrder| > 0 ==>
                    sessions[sessionsOrder[0]] == old(sessions)[sessionsOrder[0]].(reattached := true)))
    {
      var curr := sessionsOrder[0];
      if !sessions[curr].connected {
        sessions := sessions - {curr};
        sessionsOrder := sessionsOrder[1..];
        if |sessionsOrder| == 0 {
          return true;
        }
        var next := sessionsOrder[0];
        sessions := sessions[next := sessions[next].(reattached := true)];
      }
      quit := false;
    }
  }
}
