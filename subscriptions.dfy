/**
 * The stream subscription set of a subscriber: `UserStream` associations, the
 * keyword filters the subscriber runs over them (`streams.filter(sid=..., private=...)`),
 * the idempotent append, and the facts about them that the subscriber's
 * operations rely on.
 */
module Subscriptions {
  import opened Wrappers
  import opened Ids

  /**
   * One association: the referenced catalog stream, per-user viewing state, and
   * `private`, which marks a stream the subscriber owns (true) rather than an
   * official catalog stream (false).
   */
  datatype UserStream = UserStream(
    sid: ObjectId,
    favorite: bool,
    private: bool,
    recent: Timestamp,
    interruptionTime: int)

  /** `UserStream(sid=oid)`: every other field at its default (the epoch for `recent`). */
  function NewUserStream(sid: ObjectId): (e: UserStream)
    ensures e.sid == sid && !e.private && !e.favorite && e.recent == 0 && e.interruptionTime == 0
  {
    UserStream(sid, false, false, 0, 0)
  }

  /** The association `add_own_stream` builds: the default one, marked private. */
  function NewOwnStream(sid: ObjectId): (e: UserStream)
    ensures e.sid == sid && e.private && e == NewUserStream(sid).(private := true)
  {
    UserStream(sid, false, true, 0, 0)
  }

  // ---------------------------------------------------------------------------
  // Keyword filters
  // ---------------------------------------------------------------------------

  /** The keyword arguments of a `filter(...)` call; an absent keyword matches anything. */
  datatype Query = Query(sid: Option<ObjectId>, private: Option<bool>)

  function ByRef(sid: ObjectId): Query { Query(Some(sid), None) }
  function OwnRef(sid: ObjectId): Query { Query(Some(sid), Some(true)) }
  const OwnQuery: Query := Query(None, Some(true))
  const OfficialQuery: Query := Query(None, Some(false))

  predicate Matches(e: UserStream, q: Query) {
    && (q.sid.None? || e.sid == q.sid.value)
    && (q.private.None? || e.private == q.private.value)
  }

  /** `streams.filter(**q)`: the matching entries, in their order. */
  function Select(s: seq<UserStream>, q: Query): (r: seq<UserStream>)
    ensures forall e :: e in r <==> e in s && Matches(e, q)
    ensures IsSubsequence(r, s)
  {
    if s == [] then []
    else if Matches(s[0], q) then [s[0]] + Select(s[1..], q)
    else Select(s[1..], q)
  }

  /** `streams.filter(**q).delete()`: what remains of `s`, in its order. */
  function Drop(s: seq<UserStream>, q: Query): (r: seq<UserStream>)
    ensures forall e :: e in r <==> e in s && !Matches(e, q)
    ensures IsSubsequence(r, s)
  {
    if s == [] then []
    else if Matches(s[0], q) then Drop(s[1..], q)
    else [s[0]] + Drop(s[1..], q)
  }

  /** `official_streams()`: the non-private entries, in their order. */
  function Official(s: seq<UserStream>): (r: seq<UserStream>)
    ensures forall e :: e in r <==> e in s && !e.private
    ensures IsSubsequence(r, s)
  {
    Select(s, OfficialQuery)
  }

  /** `own_streams()`: the private entries, in their order. */
  function Own(s: seq<UserStream>): (r: seq<UserStream>)
    ensures forall e :: e in r <==> e in s && e.private
    ensures IsSubsequence(r, s)
  {
    Select(s, OwnQuery)
  }

  /** Some entry references catalog stream `sid`. */
  predicate HasRef(s: seq<UserStream>, sid: ObjectId) {
    exists i :: 0 <= i < |s| && s[i].sid == sid
  }

  /** The catalog streams the entries of `s` reference. */
  function SidsOf(s: seq<UserStream>): set<ObjectId> {
    set e | e in s :: e.sid
  }

  /**
   * No catalog stream is referenced twice: no two entries share a `sid`. The guarded
   * appends keep this; the schema does not enforce it.
   */
  ghost predicate UniqueRefs(s: seq<UserStream>) {
    forall i, j :: 0 <= i < j < |s| ==> s[i].sid != s[j].sid
  }

  lemma {:induction false} SelectAppend(a: seq<UserStream>, b: seq<UserStream>, q: Query)
    ensures Select(a + b, q) == Select(a, q) + Select(b, q)
  {
    if a == [] {
      assert a + b == b;
    } else {
      var ab := a + b;
      assert ab != [] && ab[0] == a[0] && ab[1..] == a[1..] + b;
      SelectAppend(a[1..], b, q);
      if Matches(a[0], q) {
        assert Select(ab, q) == [a[0]] + Select(a[1..] + b, q);
      }
    }
  }

  lemma {:induction false} DropAppend(a: seq<UserStream>, b: seq<UserStream>, q: Query)
    ensures Drop(a + b, q) == Drop(a, q) + Drop(b, q)
  {
    if a == [] {
      assert a + b == b;
    } else {
      var ab := a + b;
      assert ab != [] && ab[0] == a[0] && ab[1..] == a[1..] + b;
      DropAppend(a[1..], b, q);
      if Matches(a[0], q) {
        assert Drop(ab, q) == Drop(a[1..] + b, q);
      }
    }
  }

  /** A filter and its deletion split the collection: every entry lands in exactly one of them. */
  lemma {:induction false} SelectDropPartition(s: seq<UserStream>, q: Query)
    ensures multiset(Select(s, q)) + multiset(Drop(s, q)) == multiset(s)
    ensures |Select(s, q)| + |Drop(s, q)| == |s|
  {
    if s != [] {
      SelectDropPartition(s[1..], q);
      assert s == [s[0]] + s[1..];
    }
  }

  /** A filter that matches no entry finds nothing. */
  lemma {:induction false} SelectNone(s: seq<UserStream>, q: Query)
    requires forall i :: 0 <= i < |s| ==> !Matches(s[i], q)
    ensures Select(s, q) == []
  {
    if s != [] {
      SelectNone(s[1..], q);
    }
  }

  /** Deleting the matches of `q` leaves none for `q` to find. */
  lemma DropLeavesNoMatch(s: seq<UserStream>, q: Query)
    ensures Select(Drop(s, q), q) == []
  {
  }

  /** `HasRef` is the truth of `if found_streams` for `filter(sid=sid)`. */
  lemma HasRefSelect(s: seq<UserStream>, sid: ObjectId)
    ensures HasRef(s, sid) <==> Select(s, ByRef(sid)) != []
  {
    var r := Select(s, ByRef(sid));
    if HasRef(s, sid) {
      var i :| 0 <= i < |s| && s[i].sid == sid;
      assert s[i] in r;
    }
    if r != [] {
      assert r[0] in s;
      var i :| 0 <= i < |s| && s[i] == r[0];
    }
  }

  // ---------------------------------------------------------------------------
  // The two views
  // ---------------------------------------------------------------------------

  /**
   * `official_streams()` and `own_streams()` partition the collection: each entry,
   * with its multiplicity, is in exactly one of the two, and both keep the order.
   */
  lemma ViewsPartition(s: seq<UserStream>)
    ensures multiset(Official(s)) + multiset(Own(s)) == multiset(s)
    ensures forall e :: e in s ==> (e in Official(s) <==> e !in Own(s))
    ensures IsSubsequence(Official(s), s) && IsSubsequence(Own(s), s)
  {
    DropOwnIsOfficial(s);
    SelectDropPartition(s, OwnQuery);
  }

  /** Deleting the private entries leaves exactly the official view, in order. */
  lemma {:induction false} DropOwnIsOfficial(s: seq<UserStream>)
    ensures Drop(s, OwnQuery) == Official(s)
  {
    if s != [] {
      DropOwnIsOfficial(s[1..]);
    }
  }

  /** Deleting one owned stream leaves the official view as it was; the other private entries stay too. */
  lemma {:induction false} DropOwnRefKeepsOthers(s: seq<UserStream>, sid: ObjectId)
    ensures Official(Drop(s, OwnRef(sid))) == Official(s)
    ensures Own(Drop(s, OwnRef(sid))) == Drop(Own(s), ByRef(sid))
  {
    if s != [] {
      DropOwnRefKeepsOthers(s[1..], sid);
    }
  }

  /**
   * Removing by reference ignores the `private` flag: the entries for `sid` go from
   * both views, and each view otherwise keeps its entries in order.
   */
  lemma {:induction false} DropRefFromBothViews(s: seq<UserStream>, sid: ObjectId)
    ensures Official(Drop(s, ByRef(sid))) == Drop(Official(s), ByRef(sid))
    ensures Own(Drop(s, ByRef(sid))) == Drop(Own(s), ByRef(sid))
  {
    if s != [] {
      DropRefFromBothViews(s[1..], sid);
    }
  }

  /** The streams deleted with the private entries for `sid`: `{sid}` if there were any, else none. */
  lemma OwnRefSids(s: seq<UserStream>, sid: ObjectId)
    ensures SidsOf(Select(s, OwnRef(sid))) == if Select(s, OwnRef(sid)) == [] then {} else {sid}
  {
    var r := Select(s, OwnRef(sid));
    if r != [] {
      assert r[0] in r;
    }
  }

  /** The streams deleted with all private entries are exactly those the private entries reference. */
  lemma OwnSids(s: seq<UserStream>)
    ensures SidsOf(Own(s)) == set i | 0 <= i < |s| && s[i].private :: s[i].sid
  {
    var a := SidsOf(Own(s));
    var b := set i | 0 <= i < |s| && s[i].private :: s[i].sid;
    forall x | x in a ensures x in b {
      var e :| e in Own(s) && e.sid == x;
      var i :| 0 <= i < |s| && s[i] == e;
    }
    forall x | x in b ensures x in a {
      var i :| 0 <= i < |s| && s[i].private && s[i].sid == x;
      assert s[i] in Own(s);
    }
  }

  // ---------------------------------------------------------------------------
  // Idempotent append
  // ---------------------------------------------------------------------------

  /** `add_official_stream` / `add_own_stream`: append `e` unless its stream is referenced already. */
  function WithStream(s: seq<UserStream>, e: UserStream): (r: seq<UserStream>)
    ensures |s| <= |r| <= |s| + 1 && r[..|s|] == s
    ensures |r| == |s| + 1 <==> !HasRef(s, e.sid)
    ensures |r| == |s| + 1 ==> r[|s|] == e
    ensures HasRef(r, e.sid)
  {
    HasRefSelect(s, e.sid);
    if Select(s, ByRef(e.sid)) == [] then
      var r := s + [e];
      assert r[|s|].sid == e.sid;
      r
    else
      s
  }

  /** Adding the same stream a second time changes nothing. */
  lemma WithStreamIdempotent(s: seq<UserStream>, e: UserStream, e': UserStream)
    requires e'.sid == e.sid
    ensures WithStream(WithStream(s, e), e') == WithStream(s, e)
  {
  }

  /** Adding a stream never creates a second entry for one catalog stream. */
  lemma WithStreamKeepsUnique(s: seq<UserStream>, e: UserStream)
    requires UniqueRefs(s)
    ensures UniqueRefs(WithStream(s, e))
  {
    var r := WithStream(s, e);
    if |r| == |s| + 1 {
      forall i, j | 0 <= i < j < |r| ensures r[i].sid != r[j].sid {
        if j == |s| {
          assert r[i] == s[i];
        } else {
          assert r[i] == s[i] && r[j] == s[j];
        }
      }
    }
  }

  /** With unique references, a filter that names a `sid` finds at most one entry. */
  lemma {:induction false} UniqueAtMostOne(s: seq<UserStream>, q: Query)
    requires UniqueRefs(s) && q.sid.Some?
    ensures |Select(s, q)| <= 1
  {
    if s != [] {
      assert UniqueRefs(s[1..]) by {
        forall i, j | 0 <= i < j < |s[1..]| ensures s[1..][i].sid != s[1..][j].sid {
          assert s[1..][i] == s[i + 1] && s[1..][j] == s[j + 1];
        }
      }
      UniqueAtMostOne(s[1..], q);
      if Matches(s[0], q) {
        forall i | 0 <= i < |s[1..]| ensures !Matches(s[1..][i], q) {
          assert s[1..][i] == s[i + 1];
        }
        SelectNone(s[1..], q);
      }
    }
  }

  /** The same, for every filter that names a `sid` at once. */
  lemma UniqueFilters(s: seq<UserStream>)
    ensures UniqueRefs(s) ==> forall q: Query :: q.sid.Some? ==> |Select(s, q)| <= 1
  {
    if UniqueRefs(s) {
      forall q: Query | q.sid.Some? ensures |Select(s, q)| <= 1 {
        UniqueAtMostOne(s, q);
      }
    }
  }

  /** So deleting what such a filter finds removes at most one entry. */
  lemma DropAtMostOne(s: seq<UserStream>, q: Query)
    requires UniqueRefs(s) && q.sid.Some?
    ensures |s| - 1 <= |Drop(s, q)| <= |s|
  {
    UniqueAtMostOne(s, q);
    SelectDropPartition(s, q);
  }

  /** Adding a new stream twice leaves exactly one association for it. */
  lemma AddTwiceOneEntry(s: seq<UserStream>, e: UserStream, e': UserStream)
    requires !HasRef(s, e.sid) && e'.sid == e.sid
    ensures Select(WithStream(WithStream(s, e), e'), ByRef(e.sid)) == [e]
  {
    WithStreamIdempotent(s, e, e');
    HasRefSelect(s, e.sid);
    SelectAppend(s, [e], ByRef(e.sid));
  }

  /** Deleting entries never creates a duplicate reference. */
  lemma {:induction false} DropKeepsUnique(s: seq<UserStream>, q: Query)
    requires UniqueRefs(s)
    ensures UniqueRefs(Drop(s, q))
  {
    if s != [] {
      assert UniqueRefs(s[1..]) by {
        forall i, j | 0 <= i < j < |s[1..]| ensures s[1..][i].sid != s[1..][j].sid {
          assert s[1..][i] == s[i + 1] && s[1..][j] == s[j + 1];
        }
      }
      DropKeepsUnique(s[1..], q);
      if !Matches(s[0], q) {
        var t := Drop(s[1..], q);
        var r := [s[0]] + t;
        forall i, j | 0 <= i < j < |r| ensures r[i].sid != r[j].sid {
          if i == 0 {
            assert r[j] == t[j - 1] && t[j - 1] in s[1..];
            var k :| 0 <= k < |s[1..]| && s[1..][k] == t[j - 1];
            assert s[k + 1] == r[j];
          } else {
            assert r[i] == t[i - 1] && r[j] == t[j - 1];
          }
        }
      }
    }
  }
}
