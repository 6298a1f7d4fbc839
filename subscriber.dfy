/**
 * The Subscriber aggregate: an account document that owns its device registry
 * and its stream associations, and edits them in place.
 *
 * Persistence (`save()`) is a no-op here. Deleting the stream entity behind an
 * owned association (`stream.sid.delete()`) is recorded by adding its id to
 * the ghost set `deletedStreams`; looking a stream up by id
 * (`IStream.objects(id=sid).first()`) is the identity on ids.
 */
module Subscribers {
  import opened Ids
  import opened Enums
  import opened Password
  import opened Registry
  import opened Subscriptions
  import opened Manifest

  /** `Subscriber.MAX_DATE`, 2100-01-01T00:00:00 read as UTC, the "never expires" default. */
  const MaxDate: Timestamp := 4102444800000

  class Subscriber {
    var id: ObjectId
    var email: string
    var firstName: string
    var lastName: string
    var password: string
    var createdDate: Timestamp
    var expDate: Timestamp
    var status: Status
    var country: string
    var language: string
    var servers: seq<ObjectId>
    var devices: seq<Device>
    var maxDevicesCount: int
    var streams: seq<UserStream>

    /** The owned stream entities this subscriber has deleted so far. */
    ghost var deletedStreams: set<ObjectId>

    /**
     * The business rules the aggregate keeps: a hashed credential, the device quota,
     * one entry per stream; so every `filter(sid=...)` finds zero or one entry.
     */
    ghost predicate Valid()
      reads this
      ensures Valid() ==> forall q: Query :: q.sid.Some? ==> |Select(streams, q)| <= 1
    {
      UniqueFilters(streams);
      && |password| == HashLength
      && |devices| <= maxDevicesCount
      && UniqueRefs(streams)
    }

    /**
     * `make_subscriber`: stores the hash of the password, never the password, and
     * starts NOT_ACTIVE with no servers, devices or streams. The store assigns
     * `id`, the clock gives `now`, and the device quota default comes from the
     * deployment's constants.
     */
    constructor MakeSubscriber(id: ObjectId, email: string, firstName: string, lastName: string,
                               password: string, country: string, language: string,
                               md5: Md5, now: Timestamp, defaultDevicesCount: nat,
                               expDate: Timestamp := MaxDate)
      ensures Valid()
      ensures this.password == GeneratePasswordHash(md5, password)
      ensures CheckPasswordHash(md5, this.password, password)
      ensures this.id == id && this.email == email && this.firstName == firstName
      ensures this.lastName == lastName && this.country == country && this.language == language
      ensures this.expDate == expDate && createdDate == now && status == NotActive
      ensures servers == [] && devices == [] && streams == [] && maxDevicesCount == defaultDevicesCount
      ensures deletedStreams == {}
    {
      this.id := id;
      this.email := email;
      this.firstName := firstName;
      this.lastName := lastName;
      this.password := GeneratePasswordHash(md5, password);
      this.createdDate := now;
      this.expDate := expDate;
      this.status := NotActive;
      this.country := country;
      this.language := language;
      this.servers := [];
      this.devices := [];
      this.maxDevicesCount := defaultDevicesCount;
      this.streams := [];
      this.deletedStreams := {};
    }

    // -------------------------------------------------------------------------
    // Devices
    // -------------------------------------------------------------------------

    /** `add_device`: appended while below the quota, silently rejected otherwise. */
    method AddDevice(device: Device)
      modifies this`devices
      ensures devices == AppendDevice(old(devices), device, maxDevicesCount)
      ensures |devices| > |old(devices)| ==> |devices| <= maxDevicesCount
      ensures old(Valid()) ==> Valid()
    {
      if |devices| < maxDevicesCount {
        devices := devices + [device];
      }
    }

    /** `remove_device`: drops every device with id `did`. */
    method RemoveDevice(did: ObjectId)
      modifies this`devices
      ensures devices == DropDevices(old(devices), did)
      ensures old(Valid()) ==> Valid()
    {
      DropDevicesShrinks(devices, did);
      devices := DropDevices(devices, did);
    }

    // -------------------------------------------------------------------------
    // Streams: idempotent adds
    // -------------------------------------------------------------------------

    /** `add_official_stream`: appends the given association unless its stream is already referenced. */
    method AddOfficialStream(stream: UserStream)
      modifies this`streams
      ensures streams == WithStream(old(streams), stream)
      ensures old(Valid()) ==> Valid()
    {
      var found := Select(streams, ByRef(stream.sid));
      HasRefSelect(streams, stream.sid);
      if found == [] {
        if UniqueRefs(streams) {
          WithStreamKeepsUnique(streams, stream);
        }
        streams := streams + [stream];
      }
    }

    /** `add_official_stream_by_id`: the same, for a default (non-private) association with `oid`. */
    method AddOfficialStreamById(oid: ObjectId)
      modifies this`streams
      ensures streams == WithStream(old(streams), NewUserStream(oid))
      ensures old(Valid()) ==> Valid()
    {
      AddOfficialStream(NewUserStream(oid));
    }

    /** `add_own_stream`: appends a private association with `sid` unless `sid` is already referenced. */
    method AddOwnStream(sid: ObjectId)
      modifies this`streams
      ensures streams == WithStream(old(streams), NewOwnStream(sid))
      ensures old(Valid()) ==> Valid()
    {
      var userStream := NewOwnStream(sid);
      var found := Select(streams, ByRef(sid));
      HasRefSelect(streams, sid);
      if found == [] {
        if UniqueRefs(streams) {
          WithStreamKeepsUnique(streams, userStream);
        }
        streams := streams + [userStream];
      }
    }

    // -------------------------------------------------------------------------
    // Streams: removals
    // -------------------------------------------------------------------------

    /** `remove_official_stream`: drops every association with `sid`, private or not. */
    method RemoveOfficialStream(sid: ObjectId)
      modifies this`streams
      ensures streams == Drop(old(streams), ByRef(sid))
      ensures old(Valid()) ==> Valid() && |old(streams)| - 1 <= |streams|
    {
      if Valid() {
        DropKeepsUnique(streams, ByRef(sid));
        DropAtMostOne(streams, ByRef(sid));
      }
      streams := Drop(streams, ByRef(sid));
    }

    /** `remove_official_stream_by_id`: the lookup by id is the identity, so the same edit. */
    method RemoveOfficialStreamById(sid: ObjectId)
      modifies this`streams
      ensures streams == Drop(old(streams), ByRef(sid))
      ensures old(Valid()) ==> Valid() && |old(streams)| - 1 <= |streams|
    {
      RemoveOfficialStream(sid);
    }

    /** The loop both owned-stream removals run: delete the stream entity behind each entry. */
    method DeleteBackingStreams(found: seq<UserStream>)
      modifies this`deletedStreams
      ensures deletedStreams == old(deletedStreams) + SidsOf(found)
    {
      var i := 0;
      while i < |found|
        invariant 0 <= i <= |found|
        invariant deletedStreams == old(deletedStreams) + SidsOf(found[..i])
      {
        assert found[..i + 1] == found[..i] + [found[i]];
        deletedStreams := deletedStreams + {found[i].sid};
        i := i + 1;
      }
      assert found[..i] == found;
    }

    /** `remove_own_stream_by_id`: drops the private associations with `sid` and deletes their stream. */
    method RemoveOwnStreamById(sid: ObjectId)
      modifies this`streams, this`deletedStreams
      ensures streams == Drop(old(streams), OwnRef(sid))
      ensures deletedStreams == old(deletedStreams) + SidsOf(Select(old(streams), OwnRef(sid)))
      ensures old(Valid()) ==> Valid() && |old(streams)| - 1 <= |streams|
      ensures deletedStreams - old(deletedStreams) <= {sid}
    {
      var found := Select(streams, OwnRef(sid));
      DeleteBackingStreams(found);
      OwnRefSids(streams, sid);
      if Valid() {
        DropKeepsUnique(streams, OwnRef(sid));
        DropAtMostOne(streams, OwnRef(sid));
      }
      streams := Drop(streams, OwnRef(sid));
    }

    /** `remove_all_own_streams`: drops every private association and deletes its stream. */
    method RemoveAllOwnStreams()
      modifies this`streams, this`deletedStreams
      ensures streams == Official(old(streams))
      ensures deletedStreams == old(deletedStreams) + SidsOf(Own(old(streams)))
      ensures old(Valid()) ==> Valid()
    {
      var found := Own(streams);
      DeleteBackingStreams(found);
      if Valid() {
        DropKeepsUnique(streams, OwnQuery);
      }
      DropOwnIsOfficial(streams);
      streams := Drop(streams, OwnQuery);
    }

    // -------------------------------------------------------------------------
    // Views and lifecycle
    // -------------------------------------------------------------------------

    /** `official_streams()`: the non-private associations, in order. */
    function OfficialStreams(): (r: seq<UserStream>)
      reads this
      ensures forall e :: e in r <==> e in streams && !e.private
    {
      Official(streams)
    }

    /** `own_streams()`: the private associations, in order. */
    function OwnStreams(): (r: seq<UserStream>)
      reads this
      ensures forall e :: e in r <==> e in streams && e.private
    {
      Own(streams)
    }

    /**
     * `delete()`: a soft delete. The owned streams and their entities go, the
     * status becomes DELETED, and everything else stays attached to the record.
     */
    method Delete()
      modifies this`streams, this`deletedStreams, this`status
      ensures status == Deleted
      ensures streams == Official(old(streams)) && OwnStreams() == []
      ensures deletedStreams == old(deletedStreams) + SidsOf(Own(old(streams)))
      ensures devices == old(devices) && servers == old(servers)
      ensures email == old(email) && password == old(password)
      ensures old(Valid()) ==> Valid()
    {
      RemoveAllOwnStreams();
      DropLeavesNoMatch(old(streams), OwnQuery);
      DropOwnIsOfficial(old(streams));
      status := Deleted;
    }

    /** `generate_playlist`: the header, then one entry per association in stored order. */
    method GeneratePlaylist(did: string, lbServerHostAndPort: string, g: Generators) returns (result: string)
      ensures result == Playlist(streams, Binding(id, password, did, lbServerHostAndPort), g)
    {
      ghost var b := Binding(id, password, did, lbServerHostAndPort);
      result := Header;
      var sid := id;
      var i := 0;
      while i < |streams|
        invariant 0 <= i <= |streams|
        invariant result == Header + Entries(streams[..i], b, g)
      {
        var stream := streams[i];
        if stream.private {
          result := result + g.selfEntry(stream.sid, false);
        } else {
          result := result + g.deviceEntry(stream.sid, sid, password, did, lbServerHostAndPort, false);
        }
        assert streams[..i + 1] == streams[..i] + [stream];
        EntriesAppend(streams[..i], [stream], b, g);
        assert Entries([stream], b, g) == Entry(stream, b, g);
        i := i + 1;
      }
      assert streams[..i] == streams;
    }
  }
}
