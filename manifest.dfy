/**
 * The playback manifest (an M3U playlist) a subscriber generates for one of
 * its devices: the `#EXTM3U` header, then one entry per stream association in
 * stored order. The entries themselves come from the referenced stream
 * entities, which are outside this model, so they enter as the two generators
 * of `Generators`.
 */
module Manifest {
  import opened Ids
  import opened Subscriptions

  const Header: string := "#EXTM3U\n"

  /**
   * The stream entity's two entry generators, keyed by the stream's id:
   * `generate_playlist(raw)` for an owned stream, and
   * `generate_device_playlist(subscriber_id, password, did, lb, raw)` for an official one.
   */
  datatype Generators = Generators(
    selfEntry: (ObjectId, bool) -> string,
    deviceEntry: (ObjectId, ObjectId, string, string, string, bool) -> string)

  /** What a playlist request binds an official entry to: the subscriber, its credential, the device, the balancer. */
  datatype Binding = Binding(subscriberId: ObjectId, password: string, did: string, lb: string)

  /** The entry for one association: self-contained when private, device-bound otherwise (always non-raw). */
  function Entry(e: UserStream, b: Binding, g: Generators): (r: string)
    ensures e.private ==> r == g.selfEntry(e.sid, false)
    ensures !e.private ==> r == g.deviceEntry(e.sid, b.subscriberId, b.password, b.did, b.lb, false)
  {
    if e.private then g.selfEntry(e.sid, false)
    else g.deviceEntry(e.sid, b.subscriberId, b.password, b.did, b.lb, false)
  }

  /** The entries of `s`, in order, joined. */
  function Entries(s: seq<UserStream>, b: Binding, g: Generators): string {
    if s == [] then "" else Entry(s[0], b, g) + Entries(s[1..], b, g)
  }

  /**
   * `generate_playlist`: the header followed by exactly one generator output per
   * association, in stored order, each from the generator its `private` flag selects.
   */
  function Playlist(s: seq<UserStream>, b: Binding, g: Generators): (r: string)
    ensures |Header| <= |r| && r[..|Header|] == Header
    ensures r == Header + Concat(seq(|s|, i requires 0 <= i < |s| => Entry(s[i], b, g)))
  {
    EntriesAsConcat(s, b, g);
    Header + Entries(s, b, g)
  }

  /** Joins strings end to end. */
  function Concat(parts: seq<string>): string {
    if parts == [] then "" else parts[0] + Concat(parts[1..])
  }

  /** Entries of a split collection are the entries of its parts, in the same order. */
  lemma {:induction false} EntriesAppend(a: seq<UserStream>, c: seq<UserStream>, b: Binding, g: Generators)
    ensures Entries(a + c, b, g) == Entries(a, b, g) + Entries(c, b, g)
  {
    if a == [] {
      assert a + c == c;
    } else {
      assert (a + c)[0] == a[0] && (a + c)[1..] == a[1..] + c;
      EntriesAppend(a[1..], c, b, g);
    }
  }

  /** The joined entries are exactly one generator output per association, in stored order. */
  lemma {:induction false} EntriesAsConcat(s: seq<UserStream>, b: Binding, g: Generators)
    ensures Entries(s, b, g) == Concat(seq(|s|, i requires 0 <= i < |s| => Entry(s[i], b, g)))
  {
    var parts := seq(|s|, i requires 0 <= i < |s| => Entry(s[i], b, g));
    if s != [] {
      EntriesAsConcat(s[1..], b, g);
      assert parts[1..] == seq(|s[1..]|, i requires 0 <= i < |s[1..]| => Entry(s[1..][i], b, g));
    }
  }

  /**
   * One official stream then one owned stream: a device-bound entry for the first,
   * then a self-contained one for the second.
   */
  lemma TwoStreamScenario(s1: UserStream, s2: UserStream, subscriberId: ObjectId, password: string, g: Generators)
    requires !s1.private && s2.private
    ensures Playlist([s1, s2], Binding(subscriberId, password, "dev1", "lb:8000"), g)
         == Header + g.deviceEntry(s1.sid, subscriberId, password, "dev1", "lb:8000", false)
                   + g.selfEntry(s2.sid, false)
  {
    var b := Binding(subscriberId, password, "dev1", "lb:8000");
    assert [s1, s2][1..] == [s2];
    assert Entries([s2], b, g) == Entry(s2, b, g) by { assert [s2][1..] == []; }
  }
}
