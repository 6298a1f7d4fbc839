# Subscriber aggregate of pyfastocloud_models, in Dafny

This project models the `Subscriber` document of `pyfastocloud_models`. A
subscriber is the account record of a media-subscription service. It owns:

- a quota-bounded, ordered list of registered playback `Device`s;
- an ordered list of `UserStream` associations, each a reference to a catalog
  stream plus per-user state, where `private` marks a stream the subscriber
  owns;
- a lifecycle `status` (NOT_ACTIVE, ACTIVE, DELETED);
- a 32-character MD5 hex credential.

The aggregate edits these lists in place, so it is a Dafny `class` with `seq`
fields. Every method's `ensures` states the new field values in terms of pure
functions over sequences, and the properties the source relies on are lemmas
about those functions.

Modules:

| file | module | what it holds |
|---|---|---|
| wrappers.dfy | `Wrappers` | `Option` and `Result` |
| ids.dfy | `Ids` | `ObjectId` (a string), `Timestamp` (milliseconds), `IsSubsequence` |
| enums.dfy | `Enums` | both `Status` enumerations, their `choices`, `__str__` and the shared `coerce` (with the decimal reading and printing of `int(...)`/`str(...)`) |
| password.dfy | `Password` | `hexdigest`, `generate_password_hash`, `check_password_hash` over an MD5 parameter |
| registry.dfy | `Registry` | `Device`, quota-checked append, removal by id |
| subscriptions.dfy | `Subscriptions` | `UserStream`, keyword filters `filter(sid=…, private=…)` and their `delete()`, the idempotent append, the two views |
| manifest.dfy | `Manifest` | the playlist as a function of the associations, and entry generators passed in |
| subscriber.dfy | `Subscribers` | the `Subscriber` class: `make_subscriber` and every list-editing method, `delete`, `generate_playlist` |

Things the model takes as parameters because it cannot see them:

- **MD5.** `md5: string -> Digest` is the digest of the password's encoding. It
  is 16 bytes long and nothing else is assumed about it.
- **Entry generators.** `Generators` carries the stream entity's
  `generate_playlist` and `generate_device_playlist`.
- **Values from outside.** The clock (`now`), the store-assigned `id` and the
  deployment's default device quota come in as arguments.
- **Persistence.** `save()` does nothing.
- **Deleting an owned stream entity.** This adds its id to the ghost set
  `Subscriber.deletedStreams`.
- **Looking up a stream by id.** `IStream.objects(id=…).first()` is the
  identity on ids.

## Model

| member | source | states |
|---|---|---|
| Enums.Coerce | pyfastocloud_models/subscriber/entry.py:40-42 | a member is returned unchanged; an int is looked up by value, failing with NotAMember when no member has it; text fails with NotAnInteger exactly when `int()` cannot read it, and readable text is looked up by the value `int()` reads, exactly as that int would be |
| Enums.ToInt | pyfastocloud_models/subscriber/entry.py:42 | `int(item)` returns the number of a numeric item; on text it succeeds exactly when the text is readable, with the value `int()` reads, and otherwise fails with NotAnInteger carrying the text |
| Enums.DecimalString | pyfastocloud_models/subscriber/entry.py:44-45 | `str(value)` is a non-empty string of digits with no leading zero, whose digit value is the number |
| Enums.ParseInt | pyfastocloud_models/subscriber/entry.py:42 | `int(text)` of an unsigned all-digit text is non-negative |
| Enums.ParsePadded | pyfastocloud_models/subscriber/entry.py:42 | `int()` of whitespace, an optional `+` or `-`, a non-empty run of digits and whitespace is the digits' value, negated for `-` |
| Enums.ParseSignedDigits | pyfastocloud_models/subscriber/entry.py:42 | a text whose stripped form is a sign and digits reads as the signed digits' value |
| Enums.StripPadding | pyfastocloud_models/subscriber/entry.py:42 | surrounding whitespace is ignored: padding a text that starts and ends with a non-space character strips back to it |
| Enums.ParseRejects | pyfastocloud_models/subscriber/entry.py:42 | blank text, and a lone sign amid whitespace, are not integers |
| Enums.ParseIntForm | pyfastocloud_models/subscriber/entry.py:42 | every text `int()` accepts is whitespace, an optional `+` or `-`, a non-empty run of digits and whitespace (the converse of ParsePadded) |
| Enums.StripForm | pyfastocloud_models/subscriber/entry.py:42 | stripping removes only whitespace: the text is leading whitespace, the stripped text, trailing whitespace |
| Enums.NumberForm | pyfastocloud_models/subscriber/entry.py:42 | a stripped text `int()` accepts is an optional sign and a non-empty run of digits |
| Enums.TrimStartRemovesSpace | pyfastocloud_models/subscriber/entry.py:42 | stripping the front removes whitespace only: the removed prefix is all whitespace |
| Enums.TrimEndRemovesSpace | pyfastocloud_models/subscriber/entry.py:42 | stripping the back removes whitespace only: the removed suffix is all whitespace |
| Enums.ParseNumeral | pyfastocloud_models/subscriber/entry.py:42 | a plain numeral reads as its digits' value |
| Enums.ParseDecimalString | pyfastocloud_models/subscriber/entry.py:42-45 | what `__str__` prints, `int()` reads back as the same number |
| Enums.DeviceStatusOf | pyfastocloud_models/subscriber/entry.py:31-34 | `Device.Status(v)` exists exactly for v in 0..2, and the member found has value v |
| Enums.DeviceStatusChoices | pyfastocloud_models/subscriber/entry.py:36-38 | three pairs in value order, each paired with its name, covering every member |
| Enums.CoerceDeviceStatus | pyfastocloud_models/subscriber/entry.py:40-42 | `Device.Status.coerce` succeeds exactly on a member, an int in 0..2, or a text `int()` reads as 0..2, and the member found has that value |
| Enums.DeviceStatus.ToString | pyfastocloud_models/subscriber/entry.py:44-45 | `__str__` is the single decimal digit of the member's value, which `int()` reads back as that value |
| Enums.CoerceDeviceStatusRoundTrip | pyfastocloud_models/subscriber/entry.py:31-45 | coercing a device status's value or its printed form gives the member back; an int coerces exactly when it is in 0..2 |
| Enums.StatusOf | pyfastocloud_models/subscriber/entry.py:100-103 | `Subscriber.Status(v)` exists exactly for v in 0..2, and the member found has value v |
| Enums.StatusChoices | pyfastocloud_models/subscriber/entry.py:105-107 | three pairs in value order, each paired with its name, covering every member |
| Enums.CoerceStatus | pyfastocloud_models/subscriber/entry.py:109-111 | `Subscriber.Status.coerce` succeeds exactly on a member, an int in 0..2, or a text `int()` reads as 0..2, and the member found has that value |
| Enums.Status.ToString | pyfastocloud_models/subscriber/entry.py:113-114 | `__str__` is the single decimal digit of the member's value, which `int()` reads back as that value |
| Enums.CoerceStatusRoundTrip | pyfastocloud_models/subscriber/entry.py:100-114 | coercing a subscriber status's value or its printed form gives the member back; an int coerces exactly when it is in 0..2 |
| Password.HexDigest | pyfastocloud_models/subscriber/entry.py:227 | `hexdigest()` has two characters per byte, each a lowercase hex digit |
| Password.UnhexHexDigest | pyfastocloud_models/subscriber/entry.py:227 | the hex form of a digest reads back as that digest (no information lost) |
| Password.HexDigestOfUnhex | pyfastocloud_models/subscriber/entry.py:227 | the only string that reads back as a digest is its `hexdigest()`, so the hex form is canonical |
| Password.GeneratePasswordHash | pyfastocloud_models/subscriber/entry.py:223-231 | the credential is 32 lowercase hex characters and encodes exactly the password's MD5 digest |
| Password.CheckPasswordHash | pyfastocloud_models/subscriber/entry.py:233-235 | a hash verifies a password exactly when it reads back as that password's MD5 digest; only 32-character lowercase hex strings can verify |
| Password.CheckGeneratedHash | pyfastocloud_models/subscriber/entry.py:229-235 | the hash of a password always verifies that password |
| Password.CheckOtherPassword | pyfastocloud_models/subscriber/entry.py:224-235 | the hash of p verifies q exactly when MD5 gives p and q the same digest |
| Registry.NewDevice | pyfastocloud_models/subscriber/entry.py:27-52 | a new device is NOT_ACTIVE, named "Device", a name within the 3..32 name-length bounds, with the given id and creation time |
| Registry.AppendDevice | pyfastocloud_models/subscriber/entry.py:145-148 | the device is appended at the end, earlier entries unchanged, exactly when fewer than `quota` are registered; otherwise nothing changes; a registry within its quota stays within it |
| Registry.DropDevices | pyfastocloud_models/subscriber/entry.py:150-153 | exactly the devices whose id differs remain, each with its multiplicity, in their original order |
| Registry.DropAbsentDevice | pyfastocloud_models/subscriber/entry.py:150-153 | removing an id that no device has changes nothing |
| Registry.DropDevicesShrinks | pyfastocloud_models/subscriber/entry.py:150-153 | removal never grows the registry |
| Registry.QuotaScenario | pyfastocloud_models/subscriber/entry.py:145-148 | with quota 2, devices A and B are accepted and C is rejected |
| Subscriptions.NewUserStream | pyfastocloud_models/subscriber/entry.py:67-71 | `UserStream(sid=oid)` is non-private and non-favorite, at epoch zero, with no interruption offset |
| Subscriptions.NewOwnStream | pyfastocloud_models/subscriber/entry.py:181-182 | the owned association is the default one with `private` set |
| Subscriptions.Select | pyfastocloud_models/subscriber/entry.py:175 | `filter(**q)` keeps exactly the matching entries, in their order |
| Subscriptions.Drop | pyfastocloud_models/subscriber/entry.py:189-190 | `filter(**q).delete()` leaves exactly the non-matching entries, in their order |
| Subscriptions.Official | pyfastocloud_models/subscriber/entry.py:212-213 | `filter(private=False)` holds exactly the non-private entries, in their order |
| Subscriptions.Own | pyfastocloud_models/subscriber/entry.py:215-216 | `filter(private=True)` holds exactly the private entries, in their order |
| Subscriptions.SelectAppend | pyfastocloud_models/subscriber/entry.py:175 | filtering distributes over concatenation |
| Subscriptions.DropAppend | pyfastocloud_models/subscriber/entry.py:189-190 | deleting matches distributes over concatenation |
| Subscriptions.SelectDropPartition | pyfastocloud_models/subscriber/entry.py:188-191 | a filter and its deletion split the collection, counting multiplicity |
| Subscriptions.SelectNone | pyfastocloud_models/subscriber/entry.py:175-176 | a filter that matches no entry is empty, i.e. `not found_streams` |
| Subscriptions.DropLeavesNoMatch | pyfastocloud_models/subscriber/entry.py:197-203 | after deleting the matches of a filter, the same filter finds nothing; in particular no private entry for the removed id is left |
| Subscriptions.HasRefSelect | pyfastocloud_models/subscriber/entry.py:175-176 | `filter(sid=s)` is non-empty exactly when some entry references s |
| Subscriptions.ViewsPartition | pyfastocloud_models/subscriber/entry.py:212-216 | official and own views partition the collection: each entry is in exactly one view, multiplicities add up, and both views keep the stored order |
| Subscriptions.DropOwnIsOfficial | pyfastocloud_models/subscriber/entry.py:205-213 | deleting all private entries leaves exactly the official view |
| Subscriptions.DropOwnRefKeepsOthers | pyfastocloud_models/subscriber/entry.py:197-203 | removing the owned entry for sid leaves the official view, including a non-private entry with the same sid, unchanged; the private view loses only entries for sid |
| Subscriptions.DropRefFromBothViews | pyfastocloud_models/subscriber/entry.py:188-191 | removal by reference ignores the private flag: entries for sid leave both views, which otherwise keep their order |
| Subscriptions.OwnRefSids | pyfastocloud_models/subscriber/entry.py:197-201 | the streams deleted by `remove_own_stream_by_id(sid)` are {sid} when a private entry for sid existed, and none otherwise |
| Subscriptions.OwnSids | pyfastocloud_models/subscriber/entry.py:205-208 | the streams deleted by `remove_all_own_streams` are exactly the ones that private entries reference |
| Subscriptions.WithStream | pyfastocloud_models/subscriber/entry.py:173-186 | one entry is appended at the end exactly when no entry references its stream, otherwise nothing changes; afterwards the stream is referenced |
| Subscriptions.WithStreamIdempotent | pyfastocloud_models/subscriber/entry.py:173-186 | adding the same stream a second time changes nothing |
| Subscriptions.WithStreamKeepsUnique | pyfastocloud_models/subscriber/entry.py:173-186 | adding never creates a second entry for one stream |
| Subscriptions.UniqueAtMostOne | pyfastocloud_models/subscriber/entry.py:175-176 | with unique references, which the guarded appends keep, a filter that names a sid finds at most one entry |
| Subscriptions.UniqueFilters | pyfastocloud_models/subscriber/entry.py:183-184 | the same bound holds for every filter naming a sid at once |
| Subscriptions.DropAtMostOne | pyfastocloud_models/subscriber/entry.py:188-203 | with unique references, deleting what a sid filter finds removes at most one entry |
| Subscriptions.AddTwiceOneEntry | pyfastocloud_models/subscriber/entry.py:173-186 | adding a new stream twice leaves exactly one association, the first one |
| Subscriptions.DropKeepsUnique | pyfastocloud_models/subscriber/entry.py:188-210 | removals never create a duplicate reference |
| Manifest.EntriesAppend | pyfastocloud_models/subscriber/entry.py:158-162 | the entries of a split collection are the entries of its parts, in order |
| Manifest.EntriesAsConcat | pyfastocloud_models/subscriber/entry.py:158-162 | the entries are exactly one generator output per association, joined in stored order |
| Manifest.Entry | pyfastocloud_models/subscriber/entry.py:159-162 | a private association's entry is the self-contained `generate_playlist(False)`; any other is `generate_device_playlist` bound to the subscriber, its credential, the device and the balancer, non-raw |
| Manifest.Playlist | pyfastocloud_models/subscriber/entry.py:155-164 | the playlist starts with "#EXTM3U\n" and continues with exactly one entry per association, in stored order, joined |
| Manifest.TwoStreamScenario | pyfastocloud_models/subscriber/entry.py:155-164 | for an official S1 then an owned S2, the playlist is the header, the device-bound entry for S1, then the self entry for S2 |
| Subscribers.Subscriber.Valid | pyfastocloud_models/subscriber/entry.py:116-186 | the aggregate's invariant: a 32-character credential (lines 116, 123), no more devices than the quota (132, 145-148), one entry per sid (kept by the checks at 175-176, 183-184); under it, every sid filter finds at most one entry |
| Subscribers.Subscriber.MakeSubscriber | pyfastocloud_models/subscriber/entry.py:237-242 | stores the password's hash, which verifies that password; status NOT_ACTIVE; no servers, devices or streams; exp_date defaults to MAX_DATE |
| Subscribers.Subscriber.AddDevice | pyfastocloud_models/subscriber/entry.py:145-148 | devices become the quota-checked append, never growing past the quota; the invariant is kept |
| Subscribers.Subscriber.RemoveDevice | pyfastocloud_models/subscriber/entry.py:150-153 | devices lose exactly those with the id; the invariant is kept |
| Subscribers.Subscriber.AddOfficialStream | pyfastocloud_models/subscriber/entry.py:173-178 | streams become the idempotent append of the given association; uniqueness is kept |
| Subscribers.Subscriber.AddOfficialStreamById | pyfastocloud_models/subscriber/entry.py:169-171 | the same, for a default non-private association |
| Subscribers.Subscriber.AddOwnStream | pyfastocloud_models/subscriber/entry.py:180-186 | the same, for a private association |
| Subscribers.Subscriber.RemoveOfficialStream | pyfastocloud_models/subscriber/entry.py:188-191 | every association for sid goes, whatever its flag, and nothing else changes; under the invariant that is at most one entry |
| Subscribers.Subscriber.RemoveOfficialStreamById | pyfastocloud_models/subscriber/entry.py:193-195 | the same edit, after a lookup by id; at most one entry goes |
| Subscribers.Subscriber.DeleteBackingStreams | pyfastocloud_models/subscriber/entry.py:200-201 | the deleted set grows by exactly the streams of the entries it walks |
| Subscribers.Subscriber.RemoveOwnStreamById | pyfastocloud_models/subscriber/entry.py:197-203 | only the private associations for sid go, at most one under the invariant; their streams join the deleted set, which gains nothing but sid |
| Subscribers.Subscriber.RemoveAllOwnStreams | pyfastocloud_models/subscriber/entry.py:205-210 | exactly the official associations remain, in order; every private stream joins the deleted set |
| Subscribers.Subscriber.OfficialStreams | pyfastocloud_models/subscriber/entry.py:212-213 | exactly the non-private associations; reads only |
| Subscribers.Subscriber.OwnStreams | pyfastocloud_models/subscriber/entry.py:215-216 | exactly the private associations; reads only |
| Subscribers.Subscriber.Delete | pyfastocloud_models/subscriber/entry.py:218-221 | status becomes DELETED and the own view is empty; official associations, devices, servers, email and password are unchanged, and the record stays |
| Subscribers.Subscriber.GeneratePlaylist | pyfastocloud_models/subscriber/entry.py:155-164 | the loop's result is the playlist function of the stored associations, bound to this subscriber's id and credential and the given device and balancer |

## Left out

- Password.CheckOtherPassword: weaker than "the hash of p1 rejects every p2 != p1". It proves rejection only when MD5 gives p1 and p2 different digests, because MD5 and `password.encode()` (entry.py:224-226) are one external function, the `md5` parameter, and no injectivity is assumed of it.
- `save()`, `self.devices.save()` and `self.streams.save()` are persistence and do nothing here. `IStream.objects(...)` is the identity on ids. `stream.sid.delete()` is an insert into a ghost set. So a stream id that the catalog does not know is not modelled.
- `login_user_wrap`, `logout`, `UserMixin` (entry.py:17-18, 91-93) and all of pyfastocloud_models/subscriber/login/entry.py: these are session plumbing. The subclass's `make_subscriber` only repeats the parent factory.
- `add_server` and `all_streams` (entry.py:141-143, 166-167) are not modelled, apart from the `servers` field that `delete` leaves alone.
- `to_dict`, `to_front_dict`, `get_id`, `created_date_utc_msec` and `expiration_date_utc_msec` are not modelled. They depend on the external `IStream.to_dict` and on date conversion helpers.
- Field-level schema validation is left to the storage layer: string lengths, the `interruption_time` range, the `country` length, and `unique=True` on the lists. The device quota and the credential length are kept, as `Subscriber.Valid()`.
- `Subscriptions.UniqueRefs` (one association per `sid`) is the model's own invariant, not a guarantee of the schema: `unique=True` on `streams` (entry.py:133) is a store index option on whole embedded values, and the collection does not create indexes (entry.py:118). What keeps it is the `filter(sid=…)` check before each append (entry.py:175-176, 183-184), which `Subscriptions.WithStreamKeepsUnique` proves.
- The constants module is not part of this model. `DEFAULT_DEVICES_COUNT` is the constructor's `defaultDevicesCount` argument. `DEFAULT_LOCALE` (entry.py:128) is the field default of `language`; `make_subscriber` always passes `language`, and so does `MakeSubscriber`, so the default is not modelled.
- The date fields are plain millisecond timestamps. `MAX_DATE` (2100-01-01) is read as UTC.
- Enums.ParseInt: covers what `int(str)` accepts with ASCII digits only: ASCII whitespace around the number and an optional sign. Underscore separators, non-ASCII digits and Unicode whitespace are treated as unreadable. `coerce` of a float or other object is not modelled. It also reads decimal strings of any length, whereas CPython 3.11 and later reject those longer than 4300 digits.
- The document id before the first save is `None` in the source. Here the id always comes from the store.
- Concurrency: two racing `add_device` calls, and the gap between deleting an owned stream entity and removing its association, are outside a sequential model.

Behaviour of the code a reader may not expect:

- `add_official_stream(stream)` appends the association it is given, whatever that association's `private` flag. Only `add_official_stream_by_id` builds a non-private one.
- `remove_official_stream` removes private associations with the same reference too. The associated owned stream entity is then not deleted (`Subscriptions.DropRefFromBothViews`).
- Nothing stops a transition out of DELETED.
- `add_device` returns nothing, so a caller cannot tell an accepted device from a rejected one without reading `devices` again.
