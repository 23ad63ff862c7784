/** The connection set of the remote logger's server handler.
    `std::set<connection_ptr>` keeps its members distinct and iterates them in
    ascending key order; the model keeps the members as a strictly ascending
    sequence, so that the sequence is the set's in-order traversal. Keys are
    ordered by the fixed strict order that `operator<` on `connection_ptr`
    defines. */
module Registry {

  /** Identity of one connection handle, ordered as the set orders it. */
  type Conn = int

  /** The invariant of an ordered set's traversal: ascending, no repeats. */
  ghost predicate StrictlyAscending(s: seq<Conn>)
  {
    forall i, j :: 0 <= i < j < |s| ==> s[i] < s[j]
  }

  /** The members, as a mathematical set. */
  ghost function Elements(s: seq<Conn>): set<Conn>
  {
    set x | x in s
  }

  /** `std::set::insert`: adds `c` at its place in key order; no change when
      `c` is already a member. */
  function SetInsert(s: seq<Conn>, c: Conn): (r: seq<Conn>)
    requires StrictlyAscending(s)
    ensures StrictlyAscending(r)
    ensures forall x :: x in r <==> x in s || x == c
    ensures c in s ==> r == s
    ensures c !in s ==> |r| == |s| + 1
    ensures |r| > 0 && r[0] == (if s == [] || c < s[0] then c else s[0])
  {
    if s == [] then [c]
    else if c < s[0] then ConsAscending(c, s); [c] + s
    else if c == s[0] then s
    else
      var t := SetInsert(s[1..], c);
      ConsAscending(s[0], t);
      [s[0]] + t
  }

  /** `std::set::erase` by key: removes `c`; no change when `c` is not a member. */
  function SetErase(s: seq<Conn>, c: Conn): (r: seq<Conn>)
    requires StrictlyAscending(s)
    ensures StrictlyAscending(r)
    ensures forall x :: x in r <==> x in s && x != c
    ensures c !in s ==> r == s
    ensures c in s ==> |r| == |s| - 1
    ensures r != [] ==> s != [] && s[0] <= r[0]
  {
    if s == [] then []
    else if c == s[0] then s[1..]
    else
      var t := SetErase(s[1..], c);
      ConsAscending(s[0], t);
      [s[0]] + t
  }

  /** An element below the head of an ascending sequence extends it. */
  lemma ConsAscending(h: Conn, t: seq<Conn>)
    requires StrictlyAscending(t)
    requires t == [] || h < t[0]
    ensures StrictlyAscending([h] + t)
  {
    forall i, j | 0 <= i < j < |[h] + t|
      ensures ([h] + t)[i] < ([h] + t)[j]
    {
      if i == 0 && j > 1 {
        assert t[0] < t[j - 1];
      }
    }
  }

  /** A strictly ascending sequence is determined by its members: the sequence
      representation of the set is canonical. */
  lemma {:induction false} AscendingUnique(a: seq<Conn>, b: seq<Conn>)
    requires StrictlyAscending(a) && StrictlyAscending(b)
    requires forall x :: x in a <==> x in b
    ensures a == b
  {
    if a != [] {
      assert a[0] in a;
      HeadIsLeast(b, a[0]);
    }
    if b != [] {
      assert b[0] in b;
      HeadIsLeast(a, b[0]);
    }
    if a != [] && b != [] {
      assert a[0] == b[0];
      forall x
        ensures x in a[1..] <==> x in b[1..]
      {
        TailMembers(a, x);
        TailMembers(b, x);
      }
      AscendingUnique(a[1..], b[1..]);
      assert a == [a[0]] + a[1..];
      assert b == [b[0]] + b[1..];
    }
  }

  /** The head of a non-empty ascending sequence is its least member. */
  lemma HeadIsLeast(s: seq<Conn>, x: Conn)
    requires StrictlyAscending(s)
    requires x in s
    ensures s[0] <= x
  {
    var k :| 0 <= k < |s| && s[k] == x;
    assert k == 0 || s[0] < s[k];
  }

  /** The tail of an ascending sequence holds its members other than the head. */
  lemma TailMembers(s: seq<Conn>, x: Conn)
    requires StrictlyAscending(s) && s != []
    ensures x in s[1..] <==> x in s && x != s[0]
  {
    if x in s[1..] {
      var k :| 0 <= k < |s| - 1 && s[1..][k] == x;
      assert s[k + 1] == x;
    }
    assert s == [s[0]] + s[1..];
  }

  /** Opening a connection that was absent and then closing it restores the set. */
  lemma {:induction false} EraseAfterInsert(s: seq<Conn>, c: Conn)
    requires StrictlyAscending(s)
    requires c !in s
    ensures SetErase(SetInsert(s, c), c) == s
  {
    var t := SetInsert(s, c);
    if s != [] && s[0] < c {
      var u := SetInsert(s[1..], c);
      assert t == [s[0]] + u;
      assert t[0] == s[0] && t[1..] == u;
      EraseAfterInsert(s[1..], c);
      assert SetErase(t, c) == [s[0]] + SetErase(u, c);
      assert s == [s[0]] + s[1..];
    } else {
      assert t == [c] + s;
      assert t[1..] == s;
    }
  }

  /** Closing a member and opening it again restores the set. */
  lemma {:induction false} InsertAfterErase(s: seq<Conn>, c: Conn)
    requires StrictlyAscending(s)
    requires c in s
    ensures SetInsert(SetErase(s, c), c) == s
  {
    if s[0] != c {
      InsertAfterErase(s[1..], c);
    }
  }

  /** The number of members is the length of the traversal. */
  lemma {:induction false} SizeIsLength(s: seq<Conn>)
    requires StrictlyAscending(s)
    ensures |Elements(s)| == |s|
  {
    if s != [] {
      SizeIsLength(s[1..]);
      assert Elements(s) == {s[0]} + Elements(s[1..]);
      TailMembers(s, s[0]);
    }
  }

  /** A lifecycle event delivered to the handler. */
  datatype Event = Open(conn: Conn) | Close(conn: Conn)

  /** The set after the handler has processed `events` in order. */
  function Replay(s: seq<Conn>, events: seq<Event>): (r: seq<Conn>)
    requires StrictlyAscending(s)
    ensures StrictlyAscending(r)
    decreases |events|
  {
    if events == [] then s
    else
      var last := events[|events| - 1];
      var before := Replay(s, events[..|events| - 1]);
      match last
      case Open(c) => SetInsert(before, c)
      case Close(c) => SetErase(before, c)
  }

  /** No event from position `k` on concerns `x`. */
  ghost predicate UntouchedFrom(events: seq<Event>, k: int, x: Conn)
  {
    forall j :: 0 <= j < |events| && k <= j ==> events[j].conn != x
  }

  /** Some open of `x` is followed by no further event about `x`. */
  ghost predicate OpenedLast(events: seq<Event>, x: Conn)
  {
    exists i :: 0 <= i < |events| && events[i] == Open(x) && UntouchedFrom(events, i + 1, x)
  }

  /** `x` is a member after `events` exactly when the last event about `x` is
      an open, or when there is no event about `x` and it was a member before. */
  lemma {:induction false} ReplayMembership(s: seq<Conn>, events: seq<Event>, x: Conn)
    requires StrictlyAscending(s)
    ensures x in Replay(s, events) <==>
              OpenedLast(events, x) || (x in s && UntouchedFrom(events, 0, x))
    decreases |events|
  {
    if events != [] {
      var n := |events| - 1;
      ReplayMembership(s, events[..n], x);
      if events[n].conn == x {
        LastAboutX(events, x);
      } else {
        LastAboutOther(events, x);
      }
    }
  }

  /** When the last event concerns `x`, it alone decides. */
  lemma LastAboutX(events: seq<Event>, x: Conn)
    requires events != [] && events[|events| - 1].conn == x
    ensures OpenedLast(events, x) <==> events[|events| - 1].Open?
    ensures !UntouchedFrom(events, 0, x)
  {
    var n := |events| - 1;
    if events[n].Open? {
      assert events[n] == Open(x) && UntouchedFrom(events, n + 1, x);
    }
    if OpenedLast(events, x) {
      var i :| 0 <= i < |events| && events[i] == Open(x) && UntouchedFrom(events, i + 1, x);
      assert i == n;
    }
  }

  /** When the last event concerns another connection, the prefix decides. */
  lemma LastAboutOther(events: seq<Event>, x: Conn)
    requires events != [] && events[|events| - 1].conn != x
    ensures OpenedLast(events, x) <==> OpenedLast(events[..|events| - 1], x)
    ensures UntouchedFrom(events, 0, x) <==> UntouchedFrom(events[..|events| - 1], 0, x)
  {
    var n := |events| - 1;
    var prefix := events[..n];
    assert forall j :: 0 <= j < n ==> prefix[j] == events[j];
    if OpenedLast(events, x) {
      var i :| 0 <= i < |events| && events[i] == Open(x) && UntouchedFrom(events, i + 1, x);
      assert prefix[i] == Open(x) && UntouchedFrom(prefix, i + 1, x);
    }
    if OpenedLast(prefix, x) {
      var i :| 0 <= i < n && prefix[i] == Open(x) && UntouchedFrom(prefix, i + 1, x);
      assert events[i] == Open(x) && UntouchedFrom(events, i + 1, x);
    }
  }
}
