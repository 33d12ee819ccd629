/**
 * The attendance toggle rule of `POST /events/:id/attend`
 * (server/routes/events.js:122-132), stated on the attendee list alone:
 * a member leaves by removal at the first index, a non-member joins at the
 * end unless the list has reached the capacity.
 */
module Attendance {
  import opened EventSchema

  /** JavaScript's `indexOf`: the first index of `x` in `s`, or -1. */
  function IndexOf(s: seq<UserId>, x: UserId): (r: int)
    ensures -1 <= r < |s|
    ensures r == -1 <==> x !in s
    ensures r >= 0 ==> s[r] == x && x !in s[..r]
  {
    if s == [] then -1
    else if s[0] == x then 0
    else
      var k := IndexOf(s[1..], x);
      if k == -1 then -1
      else
        assert s[..k + 1] == [s[0]] + s[1..][..k];
        k + 1
  }

  /** The list without the first occurrence of `x` (the list itself when `x` is absent). */
  function RemoveFirst(s: seq<UserId>, x: UserId): (r: seq<UserId>)
    ensures x in s ==> |r| == |s| - 1
    ensures x !in s ==> r == s
  {
    if s == [] then []
    else if s[0] == x then s[1..]
    else [s[0]] + RemoveFirst(s[1..], x)
  }

  /** Removal takes away exactly one occurrence of a member and nothing else. */
  lemma {:induction false} RemoveFirstCounts(s: seq<UserId>, x: UserId)
    requires x in s
    ensures multiset(RemoveFirst(s, x)) == multiset(s) - multiset{x}
  {
    assert s == [s[0]] + s[1..];
    if s[0] != x {
      RemoveFirstCounts(s[1..], x);
    }
  }

  /** Removal never adds an entry. */
  lemma RemoveFirstShrinks(s: seq<UserId>, x: UserId)
    ensures multiset(RemoveFirst(s, x)) <= multiset(s)
  {
    if x in s {
      RemoveFirstCounts(s, x);
    }
  }

  /** No user appears twice. */
  predicate NoDuplicates(s: seq<UserId>) {
    forall i, j :: 0 <= i < j < |s| ==> s[i] != s[j]
  }

  /** The attendance invariant of an event: within capacity and without duplicates. */
  predicate Seated(attendees: seq<UserId>, capacity: int) {
    |attendees| <= capacity && NoDuplicates(attendees)
  }

  /** What a toggle does: the user joined, the user left, or the event is at capacity. */
  datatype Toggled = Joined(attendees: seq<UserId>) | Left(attendees: seq<UserId>) | Full

  /** The toggle rule, as a reference definition on lists. */
  function Toggle(attendees: seq<UserId>, capacity: int, user: UserId): Toggled {
    if user in attendees then Left(RemoveFirst(attendees, user))
    else if |attendees| < capacity then Joined(attendees + [user])
    else Full
  }

  /** A splice at a positive index keeps the head and splices the tail one index earlier. */
  lemma SpliceCons(s: seq<UserId>, i: nat)
    requires 0 < i < |s|
    ensures s[..i] + s[i + 1..] == [s[0]] + (s[1..][..i - 1] + s[1..][i..])
  {
  }

  /** The splice the route performs at the index `indexOf` found removes the first occurrence. */
  lemma {:induction false} SpliceAtIndexOf(s: seq<UserId>, x: UserId)
    requires x in s
    ensures var i := IndexOf(s, x); s[..i] + s[i + 1..] == RemoveFirst(s, x)
  {
    var i := IndexOf(s, x);
    if i > 0 {
      var t := s[1..];
      assert s == [s[0]] + t;
      SpliceAtIndexOf(t, x);
      assert IndexOf(t, x) == i - 1;
      assert RemoveFirst(s, x) == [s[0]] + RemoveFirst(t, x);
      SpliceCons(s, i);
    }
  }

  lemma NoDuplicatesTail(s: seq<UserId>)
    requires s != []
    ensures NoDuplicates(s) <==> s[0] !in s[1..] && NoDuplicates(s[1..])
  {
    if NoDuplicates(s) {
      forall i, j | 0 <= i < j < |s[1..]| ensures s[1..][i] != s[1..][j] {
        assert s[1..][i] == s[i + 1] && s[1..][j] == s[j + 1];
      }
    }
    if s[0] !in s[1..] && NoDuplicates(s[1..]) {
      forall i, j | 0 <= i < j < |s| ensures s[i] != s[j] {
        if i == 0 {
          assert s[j] == s[1..][j - 1];
        } else {
          assert s[i] == s[1..][i - 1] && s[j] == s[1..][j - 1];
        }
      }
    }
  }

  /** Removing the first occurrence from a list without duplicates removes the user entirely. */
  lemma {:induction false} RemoveFirstNoDuplicates(s: seq<UserId>, x: UserId)
    requires NoDuplicates(s)
    ensures NoDuplicates(RemoveFirst(s, x)) && x !in RemoveFirst(s, x)
  {
    if s != [] {
      NoDuplicatesTail(s);
      if s[0] != x {
        RemoveFirstNoDuplicates(s[1..], x);
        var t := RemoveFirst(s[1..], x);
        assert s[0] !in t by {
          RemoveFirstShrinks(s[1..], x);
          assert s[0] !in multiset(s[1..]);
        }
        NoDuplicatesTail([s[0]] + t);
        assert ([s[0]] + t)[1..] == t;
      }
    }
  }

  /** A successful toggle keeps the event within capacity and free of duplicates. */
  lemma ToggleKeepsSeated(attendees: seq<UserId>, capacity: int, user: UserId)
    ensures Seated(attendees, capacity) && !Toggle(attendees, capacity, user).Full? ==>
      Seated(Toggle(attendees, capacity, user).attendees, capacity)
  {
    if user in attendees && NoDuplicates(attendees) {
      RemoveFirstNoDuplicates(attendees, user);
    }
  }

  /** Joining appends the user at the end and keeps every earlier entry. */
  lemma JoinAppends(attendees: seq<UserId>, capacity: int, user: UserId)
    requires user !in attendees && |attendees| < capacity
    ensures var t := Toggle(attendees, capacity, user);
      && t.Joined? && |t.attendees| == |attendees| + 1
      && t.attendees[..|attendees|] == attendees && t.attendees[|attendees|] == user
  {
    assert (attendees + [user])[..|attendees|] == attendees;
  }

  /** A non-member is turned away exactly when the list has reached the capacity. */
  lemma JoinRefusedIffFull(attendees: seq<UserId>, capacity: int, user: UserId)
    requires user !in attendees
    ensures Toggle(attendees, capacity, user).Full? <==> |attendees| >= capacity
  {
  }

  /** Leaving never consults the capacity, and removes exactly one entry, at the first index. */
  lemma LeaveAlwaysSucceeds(attendees: seq<UserId>, capacity: int, user: UserId)
    requires user in attendees
    ensures var i := IndexOf(attendees, user);
      Toggle(attendees, capacity, user) == Left(attendees[..i] + attendees[i + 1..])
    ensures |Toggle(attendees, capacity, user).attendees| == |attendees| - 1
    ensures multiset(Toggle(attendees, capacity, user).attendees) == multiset(attendees) - multiset{user}
  {
    SpliceAtIndexOf(attendees, user);
    RemoveFirstCounts(attendees, user);
  }

  /** Joining and then toggling again gives back exactly the original list. */
  lemma ToggleTwiceFromAbsent(attendees: seq<UserId>, capacity: int, user: UserId)
    requires user !in attendees && |attendees| < capacity
    ensures Toggle(Toggle(attendees, capacity, user).attendees, capacity, user) == Left(attendees)
  {
    var s := attendees + [user];
    assert IndexOf(s, user) == |attendees|;
    SpliceAtIndexOf(s, user);
    assert s[..|attendees|] == attendees;
    assert s[|attendees| + 1..] == [];
  }

  /** Leaving and then toggling again re-appends the user at the end. */
  lemma ToggleTwiceFromPresent(attendees: seq<UserId>, capacity: int, user: UserId)
    requires Seated(attendees, capacity) && user in attendees
    ensures var rest := RemoveFirst(attendees, user);
      Toggle(Toggle(attendees, capacity, user).attendees, capacity, user) == Joined(rest + [user])
  {
    RemoveFirstNoDuplicates(attendees, user);
  }

  /** Two toggles in a row by the same user restore that user's membership. */
  lemma ToggleTwiceRestoresMembership(attendees: seq<UserId>, capacity: int, user: UserId)
    requires Seated(attendees, capacity)
    requires !Toggle(attendees, capacity, user).Full?
    ensures var once := Toggle(attendees, capacity, user).attendees;
      var twice := Toggle(once, capacity, user);
      !twice.Full? && (user in twice.attendees <==> user in attendees)
  {
    if user in attendees {
      ToggleTwiceFromPresent(attendees, capacity, user);
    } else {
      ToggleTwiceFromAbsent(attendees, capacity, user);
    }
  }

  /** A capacity-one event: the first user gets the seat, a second user is turned away. */
  lemma CapacityOneBoundary(a: UserId, b: UserId)
    requires a != b
    ensures Toggle([], 1, a) == Joined([a])
    ensures Toggle([a], 1, b) == Full
  {
  }
}
