/**
 * The live bus layer of the map (BusMarkers/): merging position updates from the socket into the
 * cached positions, choosing the devices of the selected lines, and placing one marker per device
 * that has a position.
 */
module DeviceMarkers {
  import opened Wrappers
  import opened RouteStep
  import opened MapFilters
  import Seqs

  /** A Traccar position; only the fields the map reads or the merge replaces are kept. */
  datatype Position = Position(id: int, deviceId: int, latitude: real, longitude: real, course: real,
                               speed: real, fixTime: string, valid: bool)

  /** A Traccar device. */
  datatype Device = Device(id: int, uniqueId: string, name: string, category: Option<string>)

  /** A bus of a transit line, linked to a tracker by `traccar_device_id` (possibly missing or empty). */
  datatype Bus = Bus(traccarDeviceId: Option<string>)

  /** A transit line as the lines query returns it. */
  datatype TransitLine = TransitLine(name: string, buses: seq<Bus>)

  /** A socket message: a position event carries `positions`, a device event carries `devices`. */
  datatype SocketEvent = SocketEvent(positions: Option<seq<Position>>, devices: Option<seq<Device>>)

  /** `isPositionEvent`: the message has a `positions` field. */
  predicate IsPositionEvent(e: SocketEvent) {
    e.positions.Some?
  }

  /** `isDeviceEvent`: the message has a `devices` field. */
  predicate IsDeviceEvent(e: SocketEvent) {
    e.devices.Some?
  }

  // ---------------------------------------------------------------------------------------------
  // Merging position updates
  // ---------------------------------------------------------------------------------------------

  /** `find` by device: the first position of `positions` for device `deviceId`, if any. */
  function FindByDevice(positions: seq<Position>, deviceId: int): (r: Option<Position>)
    ensures r.Some? <==> exists k :: 0 <= k < |positions| && positions[k].deviceId == deviceId
    ensures r.Some? ==> r.value.deviceId == deviceId
    ensures r.Some? ==> exists k :: 0 <= k < |positions| && positions[k] == r.value &&
                                   (forall j :: 0 <= j < k ==> positions[j].deviceId != deviceId)
    decreases |positions|
  {
    if positions == [] then None
    else if positions[0].deviceId == deviceId then Some(positions[0])
    else
      var r := FindByDevice(positions[1..], deviceId);
      assert r.Some? ==> exists k :: 0 < k < |positions| && positions[k] == r.value &&
                                    (forall j :: 0 <= j < k ==> positions[j].deviceId != deviceId) by {
        if r.Some? {
          var k :| 0 <= k < |positions| - 1 && positions[1..][k] == r.value &&
                   (forall j :: 0 <= j < k ==> positions[1..][j].deviceId != deviceId);
          assert positions[k + 1] == r.value;
          forall j | 0 <= j < k + 1
            ensures positions[j].deviceId != deviceId
          {
            if j > 0 {
              assert positions[j] == positions[1..][j - 1];
            }
          }
        }
      }
      assert (exists k :: 0 <= k < |positions| && positions[k].deviceId == deviceId) ==>
        exists k :: 0 <= k < |positions| - 1 && positions[1..][k].deviceId == deviceId by {
        if exists k :: 0 <= k < |positions| && positions[k].deviceId == deviceId {
          var k :| 0 <= k < |positions| && positions[k].deviceId == deviceId;
          assert positions[1..][k - 1].deviceId == deviceId;
        }
      }
      r
  }

  /** One cached position after an event: moved and turned as the first update for its device says. */
  function MergeOne(p: Position, updates: seq<Position>): (q: Position)
    ensures FindByDevice(updates, p.deviceId).None? ==> q == p
    ensures FindByDevice(updates, p.deviceId).Some? ==>
      var u := FindByDevice(updates, p.deviceId).value;
      q == p.(latitude := u.latitude, longitude := u.longitude, course := u.course)
  {
    match FindByDevice(updates, p.deviceId)
    case None => p
    case Some(u) => p.(latitude := u.latitude, longitude := u.longitude, course := u.course)
  }

  /** The `positions.data.map` of the handler: every cached position merged, in order. */
  function MergePositions(current: seq<Position>, updates: seq<Position>): (r: seq<Position>)
    ensures |r| == |current|
    ensures forall i :: 0 <= i < |current| ==>
      r[i].id == current[i].id && r[i].deviceId == current[i].deviceId && r[i].speed == current[i].speed &&
      r[i].fixTime == current[i].fixTime && r[i].valid == current[i].valid
    ensures forall i :: 0 <= i < |current| && FindByDevice(updates, current[i].deviceId).None? ==> r[i] == current[i]
    ensures forall i :: 0 <= i < |current| && FindByDevice(updates, current[i].deviceId).Some? ==>
      var u := FindByDevice(updates, current[i].deviceId).value;
      r[i].latitude == u.latitude && r[i].longitude == u.longitude && r[i].course == u.course
  {
    seq(|current|, i requires 0 <= i < |current| => MergeOne(current[i], updates))
  }

  /** Applying the same event twice leaves the cache as applying it once. */
  lemma MergeIdempotent(current: seq<Position>, updates: seq<Position>)
    ensures MergePositions(MergePositions(current, updates), updates) == MergePositions(current, updates)
  {
    var once := MergePositions(current, updates);
    forall i | 0 <= i < |current|
      ensures MergeOne(once[i], updates) == once[i]
    {
      assert once[i].deviceId == current[i].deviceId;
    }
  }

  /** An event whose updates name none of the cached devices changes nothing. */
  lemma MergeUnrelated(current: seq<Position>, updates: seq<Position>)
    requires forall i, k :: 0 <= i < |current| && 0 <= k < |updates| ==> updates[k].deviceId != current[i].deviceId
    ensures MergePositions(current, updates) == current
  {
    forall i | 0 <= i < |current|
      ensures MergeOne(current[i], updates) == current[i]
    {
      assert FindByDevice(updates, current[i].deviceId).None?;
    }
  }

  /**
   * `onPositionUpdate`: the positions written to the cache for a socket message, or `None` when
   * nothing is written: a message without positions, or no cached positions yet. The listener is
   * registered only while a bus layer is mounted, so with the bus filter "none" no message reaches
   * this handler; the model states the handler itself, whatever the filter.
   */
  function OnPositionUpdate(event: SocketEvent, cached: Option<seq<Position>>): (write: Option<seq<Position>>)
    ensures !IsPositionEvent(event) || cached.None? ==> write.None?
    ensures IsPositionEvent(event) && cached.Some? ==>
      write.Some? && |write.value| == |cached.value| &&
      write.value == MergePositions(cached.value, event.positions.value)
  {
    if IsPositionEvent(event) && cached.Some? then Some(MergePositions(cached.value, event.positions.value))
    else None
  }

  /** A device event never touches the cache; a position event with no updates rewrites it unchanged. */
  lemma OnPositionUpdateCases(devices: seq<Device>, cached: seq<Position>)
    ensures OnPositionUpdate(SocketEvent(None, Some(devices)), Some(cached)).None?
    ensures OnPositionUpdate(SocketEvent(Some([]), None), Some(cached)) == Some(cached)
  {
    MergeUnrelated(cached, []);
  }

  // ---------------------------------------------------------------------------------------------
  // Devices of the selected lines (`filteredDevicesData`)
  // ---------------------------------------------------------------------------------------------

  /** The line's name is one of `names`. */
  function LineNamedIn(names: seq<string>): TransitLine -> bool {
    (l: TransitLine) => l.name in names
  }

  /** The device's `uniqueId` is one of `ids`. */
  function UniqueIdIn(ids: seq<string>): Device -> bool {
    (d: Device) => d.uniqueId in ids
  }

  /** The ids collected after the buses of one line: each present, new id appended once. */
  function AddBusIds(ids: seq<string>, buses: seq<Bus>): seq<string>
    decreases |buses|
  {
    if buses == [] then ids
    else
      var prev := AddBusIds(ids, buses[..|buses| - 1]);
      var bus := buses[|buses| - 1];
      if Truthy(bus.traccarDeviceId) && bus.traccarDeviceId.value !in prev then prev + [bus.traccarDeviceId.value]
      else prev
  }

  /** The `busesIds` collected from the selected lines, line after line. */
  function BusIds(lines: seq<TransitLine>): seq<string>
    decreases |lines|
  {
    if lines == [] then []
    else AddBusIds(BusIds(lines[..|lines| - 1]), lines[|lines| - 1].buses)
  }

  /** No id occurs twice. */
  predicate NoDuplicates(ids: seq<string>) {
    forall i, j :: 0 <= i < j < |ids| ==> ids[i] != ids[j]
  }

  /** `x` is the tracker id of one of the buses. */
  predicate TrackedBy(buses: seq<Bus>, x: string) {
    exists b :: 0 <= b < |buses| && buses[b].traccarDeviceId == Some(x)
  }

  /** `x` is the tracker id of a bus of one of the lines. */
  predicate TrackedOnLines(lines: seq<TransitLine>, x: string) {
    exists l :: 0 <= l < |lines| && TrackedBy(lines[l].buses, x)
  }

  /**
   * Adding the buses of a line keeps the list free of duplicates and of empty ids, and adds
   * exactly the non-empty tracker ids of those buses.
   */
  lemma {:induction false} AddBusIdsSpec(ids: seq<string>, buses: seq<Bus>)
    requires NoDuplicates(ids) && "" !in ids
    ensures NoDuplicates(AddBusIds(ids, buses)) && "" !in AddBusIds(ids, buses)
    ensures forall x :: x in AddBusIds(ids, buses) <==> x in ids || (x != "" && TrackedBy(buses, x))
    decreases |buses|
  {
    if buses != [] {
      var n := |buses| - 1;
      AddBusIdsSpec(ids, buses[..n]);
      forall x
        ensures TrackedBy(buses, x) <==> TrackedBy(buses[..n], x) || buses[n].traccarDeviceId == Some(x)
      {
        if TrackedBy(buses, x) && buses[n].traccarDeviceId != Some(x) {
          var b :| 0 <= b < |buses| && buses[b].traccarDeviceId == Some(x);
          assert buses[..n][b] == buses[b];
        }
        if TrackedBy(buses[..n], x) {
          var b :| 0 <= b < n && buses[..n][b].traccarDeviceId == Some(x);
          assert buses[b] == buses[..n][b];
        }
      }
    }
  }

  /**
   * The collected ids have no duplicates and no empty id, and an id is collected exactly when a
   * bus of one of the lines carries it.
   */
  lemma {:induction false} BusIdsSpec(lines: seq<TransitLine>)
    ensures NoDuplicates(BusIds(lines)) && "" !in BusIds(lines)
    ensures forall x :: x in BusIds(lines) <==> x != "" && TrackedOnLines(lines, x)
    decreases |lines|
  {
    if lines != [] {
      var n := |lines| - 1;
      BusIdsSpec(lines[..n]);
      AddBusIdsSpec(BusIds(lines[..n]), lines[n].buses);
      forall x
        ensures TrackedOnLines(lines, x) <==> TrackedOnLines(lines[..n], x) || TrackedBy(lines[n].buses, x)
      {
        if TrackedOnLines(lines, x) && !TrackedBy(lines[n].buses, x) {
          var l :| 0 <= l < |lines| && TrackedBy(lines[l].buses, x);
          assert lines[..n][l] == lines[l];
        }
        if TrackedOnLines(lines[..n], x) {
          var l :| 0 <= l < n && TrackedBy(lines[..n][l].buses, x);
          assert lines[l] == lines[..n][l];
        }
      }
    }
  }

  /**
   * The devices of the bus layer in line-only mode: none for the "none" line filter, all for
   * "all", otherwise the devices whose `uniqueId` is a tracker id on a selected line.
   */
  function FilteredDevices(devices: seq<Device>, lines: seq<TransitLine>, filter: LineFilter): seq<Device> {
    match filter
    case NoLines => []
    case AllLines => devices
    case Lines(names) => Seqs.Filter(devices, UniqueIdIn(BusIds(Seqs.Filter(lines, LineNamedIn(names)))))
  }

  /** `filteredDevicesData`: the nested `forEach` that collects `busesIds`, then the device filter. */
  method FilteredDevicesData(devices: seq<Device>, lines: seq<TransitLine>, filters: SavedFilters)
    returns (r: seq<Device>)
    ensures r == FilteredDevices(devices, lines, filters.line)
  {
    if filters.line == NoLines {
      return [];
    }
    if filters.line == AllLines {
      return devices;
    }
    var selectedLines := Seqs.Filter(lines, LineNamedIn(filters.line.names));
    var busesIds: seq<string> := [];
    for i := 0 to |selectedLines|
      invariant busesIds == BusIds(selectedLines[..i])
    {
      var line := selectedLines[i];
      ghost var before := busesIds;
      for j := 0 to |line.buses|
        invariant busesIds == AddBusIds(before, line.buses[..j])
      {
        assert line.buses[..j + 1][..j] == line.buses[..j];
        var bus := line.buses[j];
        if Truthy(bus.traccarDeviceId) && bus.traccarDeviceId.value !in busesIds {
          busesIds := busesIds + [bus.traccarDeviceId.value];
        }
      }
      assert line.buses[..|line.buses|] == line.buses;
      assert selectedLines[..i + 1][..i] == selectedLines[..i];
    }
    assert selectedLines[..|selectedLines|] == selectedLines;
    r := Seqs.Filter(devices, UniqueIdIn(busesIds));
  }

  /**
   * With a list of lines, a device is kept exactly when it is loaded and its `uniqueId` is the
   * non-empty tracker id of a bus on a selected line; the kept devices stay in their order.
   */
  lemma FilteredDevicesSelected(devices: seq<Device>, lines: seq<TransitLine>, names: seq<string>, d: Device)
    ensures d in FilteredDevices(devices, lines, Lines(names)) <==>
      d in devices && d.uniqueId != "" &&
      exists l :: 0 <= l < |lines| && lines[l].name in names && TrackedBy(lines[l].buses, d.uniqueId)
    ensures Seqs.IsSubsequence(FilteredDevices(devices, lines, Lines(names)), devices)
  {
    var selected := Seqs.Filter(lines, LineNamedIn(names));
    var ids := BusIds(selected);
    BusIdsSpec(selected);
    Seqs.FilterMembership(devices, UniqueIdIn(ids), d);
    Seqs.FilterIsSubsequence(devices, UniqueIdIn(ids));
    var x := d.uniqueId;
    if TrackedOnLines(selected, x) {
      var l :| 0 <= l < |selected| && TrackedBy(selected[l].buses, x);
      Seqs.FilterMembership(lines, LineNamedIn(names), selected[l]);
      var m :| 0 <= m < |lines| && lines[m] == selected[l];
      assert lines[m].name in names && TrackedBy(lines[m].buses, x);
    }
    if exists l :: 0 <= l < |lines| && lines[l].name in names && TrackedBy(lines[l].buses, x) {
      var l :| 0 <= l < |lines| && lines[l].name in names && TrackedBy(lines[l].buses, x);
      Seqs.FilterMembership(lines, LineNamedIn(names), lines[l]);
      var m :| 0 <= m < |selected| && selected[m] == lines[l];
      assert TrackedBy(selected[m].buses, x);
    }
  }

  // ---------------------------------------------------------------------------------------------
  // Markers
  // ---------------------------------------------------------------------------------------------

  /** A bus marker: the device it stands for, where it is and where it heads. */
  datatype BusMarker = BusMarker(deviceId: int, location: Point, course: real)

  /** The marker of one device: nothing without a position, else at its first position. */
  function DeviceMarker(d: Device, positions: seq<Position>): (m: Option<BusMarker>)
    ensures m.Some? <==> exists k :: 0 <= k < |positions| && positions[k].deviceId == d.id
    ensures m.Some? ==> m.value.deviceId == d.id
    ensures m.Some? ==> var p := FindByDevice(positions, d.id).value;
      m.value.location == LatLng(p.latitude, p.longitude) && m.value.course == p.course
  {
    match FindByDevice(positions, d.id)
    case None => None
    case Some(p) => Some(BusMarker(d.id, LatLng(p.latitude, p.longitude), p.course))
  }

  /** One marker entry per device, in device order. */
  function MarkersFor(devices: seq<Device>, positions: seq<Position>): (r: seq<Option<BusMarker>>)
    ensures |r| == |devices|
    ensures forall i :: 0 <= i < |devices| ==> r[i] == DeviceMarker(devices[i], positions)
  {
    seq(|devices|, i requires 0 <= i < |devices| => DeviceMarker(devices[i], positions))
  }

  /** `AllDevicePositionMarkers`: nothing until positions and devices are loaded, then every device. */
  function AllMarkers(positions: Option<seq<Position>>, devices: Option<seq<Device>>): (r: seq<Option<BusMarker>>)
    ensures positions.None? || devices.None? ==> r == []
    ensures positions.Some? && devices.Some? ==> r == MarkersFor(devices.value, positions.value)
  {
    if positions.None? || devices.None? then [] else MarkersFor(devices.value, positions.value)
  }

  /**
   * `LineOnlyDevicePositionMarkers`: nothing until positions, devices and lines are loaded, then
   * the devices of the selected lines.
   */
  function LineOnlyMarkers(positions: Option<seq<Position>>, devices: Option<seq<Device>>,
                           lines: Option<seq<TransitLine>>, filters: SavedFilters): (r: seq<Option<BusMarker>>)
    ensures positions.None? || devices.None? || lines.None? ==> r == []
    ensures positions.Some? && devices.Some? && lines.Some? ==>
      r == MarkersFor(FilteredDevices(devices.value, lines.value, filters.line), positions.value)
  {
    if positions.None? || devices.None? || lines.None? then []
    else MarkersFor(FilteredDevices(devices.value, lines.value, filters.line), positions.value)
  }

  /** `DevicePositionMarkers`: the bus filter picks no layer, every bus, or the buses of the lines. */
  function BusLayer(positions: Option<seq<Position>>, devices: Option<seq<Device>>,
                    lines: Option<seq<TransitLine>>, filters: SavedFilters): (r: seq<Option<BusMarker>>)
    ensures filters.bus == ShowNone ==> r == []
    ensures filters.bus == ShowAll ==> r == AllMarkers(positions, devices)
    ensures filters.bus == LineOnly ==> r == LineOnlyMarkers(positions, devices, lines, filters)
  {
    match filters.bus
    case ShowNone => []
    case ShowAll => AllMarkers(positions, devices)
    case LineOnly => LineOnlyMarkers(positions, devices, lines, filters)
  }

  /**
   * Every bus marker on the map stands for a loaded device that has a position; in line-only
   * mode with a list of lines, that device is tracked by a bus of a selected line.
   */
  lemma BusLayerShowsTrackedDevices(positions: seq<Position>, devices: seq<Device>, lines: seq<TransitLine>,
                                    filters: SavedFilters, m: BusMarker)
    requires Some(m) in BusLayer(Some(positions), Some(devices), Some(lines), filters)
    ensures exists d :: d in devices && d.id == m.deviceId &&
                        (exists k :: 0 <= k < |positions| && positions[k].deviceId == d.id)
    ensures filters.bus == LineOnly && filters.line.Lines? ==>
      exists d :: d in devices && d.id == m.deviceId &&
        exists l :: 0 <= l < |lines| && lines[l].name in filters.line.names && TrackedBy(lines[l].buses, d.uniqueId)
  {
    var shown := if filters.bus == ShowAll then devices else FilteredDevices(devices, lines, filters.line);
    var r := MarkersFor(shown, positions);
    assert BusLayer(Some(positions), Some(devices), Some(lines), filters) == r;
    var i :| 0 <= i < |r| && r[i] == Some(m);
    var d := shown[i];
    assert DeviceMarker(d, positions) == Some(m);
    if filters.bus == LineOnly && filters.line.Lines? {
      FilteredDevicesSelected(devices, lines, filters.line.names, d);
      assert d in shown;
    }
    if filters.bus == LineOnly && filters.line == AllLines {
      assert shown == devices;
    }
    assert d in devices by {
      if filters.bus == LineOnly && filters.line.Lines? {
        assert d in shown;
      } else {
        assert shown == devices;
      }
    }
  }
}
