/**
 * The device registry of a subscriber: `Device` values and the two list edits
 * the subscriber makes on them (quota-checked append, removal by id).
 */
module Registry {
  import opened Ids
  import opened Enums

  const DefaultDeviceName: string := "Device"
  const MinDeviceNameLength: nat := 3
  const MaxDeviceNameLength: nat := 32

  datatype Device = Device(id: ObjectId, createdDate: Timestamp, status: DeviceStatus, name: string)

  /** `Device()` with its defaults: a fresh `id` and the creation time come from outside. */
  function NewDevice(id: ObjectId, now: Timestamp): (d: Device)
    ensures d.id == id && d.createdDate == now && d.status == DeviceNotActive
    ensures d.name == DefaultDeviceName
    ensures MinDeviceNameLength <= |d.name| <= MaxDeviceNameLength
  {
    Device(id, now, DeviceNotActive, DefaultDeviceName)
  }

  /** `add_device`: append while the registry holds fewer than `quota` devices, otherwise change nothing. */
  function AppendDevice(devices: seq<Device>, d: Device, quota: int): (r: seq<Device>)
    ensures |devices| <= |r| <= |devices| + 1 && r[..|devices|] == devices
    ensures |r| == |devices| + 1 <==> |devices| < quota
    ensures |r| == |devices| + 1 ==> r[|devices|] == d
    ensures |devices| <= quota ==> |r| <= quota
  {
    if |devices| < quota then devices + [d] else devices
  }

  /** `remove_device`: `devices.filter(id=did).delete()`, every device with that id goes. */
  function DropDevices(devices: seq<Device>, did: ObjectId): (r: seq<Device>)
    ensures forall d :: d in r <==> d in devices && d.id != did
    ensures IsSubsequence(r, devices)
    ensures forall d :: multiset(r)[d] == if d.id == did then 0 else multiset(devices)[d]
  {
    if devices == [] then []
    else
      assert devices == [devices[0]] + devices[1..];
      if devices[0].id == did then DropDevices(devices[1..], did)
      else [devices[0]] + DropDevices(devices[1..], did)
  }

  /** Removing an absent id silently does nothing. */
  lemma {:induction false} DropAbsentDevice(devices: seq<Device>, did: ObjectId)
    requires forall i :: 0 <= i < |devices| ==> devices[i].id != did
    ensures DropDevices(devices, did) == devices
  {
    if devices != [] {
      DropAbsentDevice(devices[1..], did);
      assert devices == [devices[0]] + devices[1..];
    }
  }

  /** Removal never grows the registry, so a registry within its quota stays within it. */
  lemma {:induction false} DropDevicesShrinks(devices: seq<Device>, did: ObjectId)
    ensures |DropDevices(devices, did)| <= |devices|
  {
    if devices != [] {
      DropDevicesShrinks(devices[1..], did);
    }
  }

  /** Quota 2: the first two devices are accepted, the third is silently rejected. */
  lemma QuotaScenario(a: Device, b: Device, c: Device)
    ensures AppendDevice([], a, 2) == [a]
    ensures AppendDevice([a], b, 2) == [a, b]
    ensures AppendDevice([a, b], c, 2) == [a, b]
  {
  }
}
