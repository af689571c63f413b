/** The follower's reading loop and the server's batch loop. */
module SensorStore {
  import opened Wrappers
  import opened SensorModel

  class EveFollower {
    const parse: Parser
    var offset: nat
    var checkpoint: nat

    constructor (parse: Parser, stored: Option<int>)
      ensures this.parse == parse && offset == checkpoint
      ensures offset == if stored.Some? && stored.value > 0 then stored.value else 0
    {
      this.parse := parse;
      var start := if stored.Some? && stored.value > 0 then stored.value else 0;
      offset, checkpoint := start, start;
    }

    /** Read whole lines from the offset; file is None while the file does not exist. */
    method Read(file: Option<string>, limit: int) returns (records: seq<Record>, next: nat)
      modifies this`offset
      ensures file.None? ==> records == [] && next == offset == old(offset)
      ensures file.Some? ==>
                && offset == (if |file.value| < old(offset) then 0 else old(offset))
                && IsRead(parse, file.value, offset, limit, records, next)
    {
      records := [];
      if file.None? {
        return records, offset;
      }
      var text := file.value;
      if |text| < offset {
        offset := 0;
      }
      var from := offset;
      next := from;
      ReadNothing(parse, text, from);
      while |records| < limit
        invariant offset == from && ReadSoFar(parse, text, from, next, records)
        invariant records != [] ==> |records| <= limit
        decreases |text| - next
      {
        var end := LineEnd(text, next);
        if end.None? {
          break;
        }
        ReadNext(parse, text, from, next, records, end.value);
        records := records + ParsedLine(parse, text[next..end.value]);
        next := end.value;
      }
    }

    method Commit(next: nat)
      modifies this
      ensures offset == next && checkpoint == next
    {
      checkpoint := next;
      offset := next;
    }
  }

  datatype Receipt = Receipt(accepted: nat, duplicates: nat, observed: nat)

  class SensorApi {
    const identity: Identity
    var alerts: seq<StoredAlert>
    var outbox: seq<AlertId>
    var sensors: map<SensorId, SensorState>

    constructor (identity: Identity)
      ensures this.identity == identity && Snapshot() == Server([], [], map[])
    {
      this.identity := identity;
      alerts, outbox, sensors := [], [], map[];
    }

    function Snapshot(): Server
      reads this
    {
      Server(alerts, outbox, sensors)
    }

    /** ingest_suricata: the receipt splits the batch's alert records into new and known ones. */
    method IngestSuricata(sensor: SensorId, batch: seq<Record>) returns (receipt: Receipt)
      modifies this
      ensures Snapshot() == Ingest(identity, old(Snapshot()), sensor, batch)
      ensures receipt.observed == |batch|
      ensures receipt.accepted == |alerts| - |old(alerts)|
      ensures receipt.accepted + receipt.duplicates == |AlertPositions(batch)|
    {
      var accepted, duplicates := 0, 0;
      var state := if sensor in sensors then sensors[sensor] else SensorState(0, 0);
      state := state.(eventsSeen := state.eventsSeen + |batch|);
      for i := 0 to |batch|
        invariant (alerts, outbox) == IngestRecords(identity, sensor, (old(alerts), old(outbox)), batch[..i])
        invariant accepted == |alerts| - |old(alerts)|
        invariant accepted + duplicates == AlertRecords(batch[..i])
        invariant sensors == old(sensors)
      {
        assert batch[..i + 1][..i] == batch[..i];
        var r := batch[i];
        if r.Alert? {
          var id := identity(sensor, r.material);
          if IsStored(alerts, id) {
            duplicates := duplicates + 1;
          } else {
            alerts := alerts + [StoredAlert(id, sensor)];
            outbox := outbox + [id];
            accepted := accepted + 1;
          }
        }
      }
      assert batch[..|batch|] == batch;
      AlertRecordsAre(batch);
      sensors := sensors[sensor := state.(alertsAccepted := state.alertsAccepted + accepted)];
      receipt := Receipt(accepted, duplicates, |batch|);
    }
  }
}
