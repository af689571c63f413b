/** The sensor path: a follower that reads complete lines of an event file from a checkpoint, and a
    server that stores each alert identity once.  Parsing a line, and hashing an alert into its
    identity, are parameters. */
module SensorModel {
  import opened Wrappers

  type SensorId = nat
  type AlertId = nat
  type Material = nat

  /** A normalized record: an alert with its identity material, an alert without a body, statistics. */
  datatype Record = Alert(material: Material) | BareAlert | Stats

  /** What json.loads and normalize make of one line: nothing for a malformed or irrelevant one. */
  type Parser = string -> Option<Record>

  type Identity = (SensorId, Material) -> AlertId

  // ---------------------------------------------------------------- the follower

  /** The position after the first newline at or after i. */
  function LineEnd(text: string, i: nat): (end: Option<nat>)
    requires i <= |text|
    ensures end.None? ==> forall k :: i <= k < |text| ==> text[k] != '\n'
    ensures end.Some? ==> i < end.value <= |text| && text[end.value - 1] == '\n'
                          && forall k :: i <= k < end.value - 1 ==> text[k] != '\n'
    decreases |text| - i
  {
    if i == |text| then None
    else if text[i] == '\n' then Some(i + 1)
    else LineEnd(text, i + 1)
  }

  function ParsedLine(parse: Parser, line: string): seq<Record> {
    match parse(line)
    case None => []
    case Some(r) => [r]
  }

  /** The records of the complete lines of a text; a torn last line counts for nothing. */
  function Records(parse: Parser, text: string): seq<Record> {
    match LineEnd(text, 0)
    case None => []
    case Some(n) => ParsedLine(parse, text[..n]) + Records(parse, text[n..])
  }

  predicate AtBoundary(text: string, i: nat) {
    i <= |text| && (i == 0 || text[i - 1] == '\n')
  }

  lemma LineEndOfPrefix(text: string, i: nat, n: nat)
    requires i < n <= |text| && text[n - 1] == '\n'
    requires forall k :: i <= k < n - 1 ==> text[k] != '\n'
    ensures LineEnd(text, i) == Some(n)
    decreases n - i
  {
  }

  lemma FirstLineOfConcat(a: string, b: string, n: nat)
    requires LineEnd(a, 0) == Some(n)
    ensures LineEnd(a + b, 0) == Some(n) && (a + b)[..n] == a[..n] && (a + b)[n..] == a[n..] + b
  {
    LineEndOfPrefix(a + b, 0, n);
  }

  lemma RecordsCons(parse: Parser, text: string, n: nat)
    requires LineEnd(text, 0) == Some(n)
    ensures Records(parse, text) == ParsedLine(parse, text[..n]) + Records(parse, text[n..])
  {
  }

  lemma Regroup(line: seq<Record>, tail: seq<Record>, rest: seq<Record>)
    ensures line + (tail + rest) == line + tail + rest
  {
  }

  /** One line more in front. */
  lemma ConcatStep(parse: Parser, a: string, b: string, n: nat)
    requires LineEnd(a, 0) == Some(n)
    requires Records(parse, a[n..] + b) == Records(parse, a[n..]) + Records(parse, b)
    ensures Records(parse, a + b) == Records(parse, a) + Records(parse, b)
  {
    var line := ParsedLine(parse, a[..n]);
    assert Records(parse, a) == line + Records(parse, a[n..]) by {
      RecordsCons(parse, a, n);
    }
    assert Records(parse, a + b) == line + Records(parse, a[n..] + b) by {
      FirstLineOfConcat(a, b, n);
      RecordsCons(parse, a + b, n);
    }
    Regroup(line, Records(parse, a[n..]), Records(parse, b));
  }

  lemma {:induction false} RecordsConcat(parse: Parser, a: string, b: string)
    requires a != "" ==> a[|a| - 1] == '\n'
    ensures Records(parse, a + b) == Records(parse, a) + Records(parse, b)
    decreases |a|
  {
    if a == "" {
      assert a + b == b;
    } else {
      var n := LineEnd(a, 0).value;
      RecordsConcat(parse, a[n..], b);
      ConcatStep(parse, a, b, n);
    }
  }

  lemma RecordsSplit(parse: Parser, text: string, i: nat, j: nat)
    requires i <= j <= |text| && AtBoundary(text, i)
    ensures Records(parse, text[..j]) == Records(parse, text[..i]) + Records(parse, text[i..j])
  {
    assert text[..j] == text[..i] + text[i..j];
    RecordsConcat(parse, text[..i], text[i..j]);
  }

  lemma RecordsOfLine(parse: Parser, line: string)
    requires line != "" && line[|line| - 1] == '\n'
    requires forall k :: 0 <= k < |line| - 1 ==> line[k] != '\n'
    ensures Records(parse, line) == ParsedLine(parse, line)
  {
    LineEndOfPrefix(line, 0, |line|);
    assert line[..|line|] == line && line[|line|..] == "";
    assert LineEnd("", 0).None?;
  }

  lemma RecordsBetween(parse: Parser, text: string, i: nat, j: nat, k: nat)
    requires i <= j <= k <= |text| && (j == i || text[j - 1] == '\n')
    ensures Records(parse, text[i..k]) == Records(parse, text[i..j]) + Records(parse, text[j..k])
  {
    var a, b := text[i..j], text[j..k];
    assert a != "" ==> a[|a| - 1] == text[j - 1];
    assert text[i..k] == a + b;
    RecordsConcat(parse, a, b);
  }

  lemma RecordsOfNextLine(parse: Parser, text: string, next: nat, end: nat)
    requires next <= |text| && LineEnd(text, next) == Some(end)
    ensures Records(parse, text[next..end]) == ParsedLine(parse, text[next..end])
  {
    var line := text[next..end];
    assert line[|line| - 1] == text[end - 1];
    assert forall k :: 0 <= k < |line| - 1 ==> line[k] == text[next + k];
    RecordsOfLine(parse, line);
  }

  /** Reading one more line appends its record, if it has one. */
  lemma ReadOneLine(parse: Parser, text: string, from: nat, next: nat, end: nat)
    requires from <= next < end <= |text|
    requires next == from || text[next - 1] == '\n'
    requires LineEnd(text, next) == Some(end)
    ensures Records(parse, text[from..end]) == Records(parse, text[from..next]) + ParsedLine(parse, text[next..end])
  {
    RecordsBetween(parse, text, from, next, end);
    RecordsOfNextLine(parse, text, next, end);
  }

  /** The records of the whole lines between two positions have been read. */
  ghost predicate ReadSoFar(parse: Parser, text: string, from: nat, next: nat, records: seq<Record>) {
    && from <= next <= |text|
    && (next == from || text[next - 1] == '\n')
    && records == Records(parse, text[from..next])
  }

  lemma ReadNothing(parse: Parser, text: string, from: nat)
    requires from <= |text|
    ensures ReadSoFar(parse, text, from, from, [])
  {
    assert text[from..from] == "";
    assert LineEnd("", 0).None?;
  }

  lemma ReadNext(parse: Parser, text: string, from: nat, next: nat, records: seq<Record>, end: nat)
    requires ReadSoFar(parse, text, from, next, records) && LineEnd(text, next) == Some(end)
    ensures ReadSoFar(parse, text, from, end, records + ParsedLine(parse, text[next..end]))
  {
    ReadOneLine(parse, text, from, next, end);
  }

  /** What one call of read promises: the records of whole lines from offset to next, at most limit of
      them, stopping early only when no complete line is left. */
  ghost predicate IsRead(parse: Parser, text: string, offset: nat, limit: int, records: seq<Record>, next: nat) {
    && ReadSoFar(parse, text, offset, next, records)
    && (records != [] ==> |records| <= limit)
    && (|records| < limit ==> LineEnd(text, next).None?)
  }

  // ---------------------------------------------------------------- the server

  datatype StoredAlert = StoredAlert(id: AlertId, sensor: SensorId)

  datatype SensorState = SensorState(eventsSeen: nat, alertsAccepted: nat)

  /** Alerts, their outbox rows in the same order, and one state row per sensor. */
  datatype Server = Server(alerts: seq<StoredAlert>, outbox: seq<AlertId>, sensors: map<SensorId, SensorState>)

  predicate IsStored(alerts: seq<StoredAlert>, id: AlertId) {
    exists i :: 0 <= i < |alerts| && alerts[i].id == id
  }

  /** One record of a batch: the tables and the count of accepted alerts. */
  function IngestOne(identity: Identity, sensor: SensorId, acc: (seq<StoredAlert>, seq<AlertId>), r: Record)
    : (seq<StoredAlert>, seq<AlertId>)
  {
    if r.Alert? && !IsStored(acc.0, identity(sensor, r.material)) then
      var id := identity(sensor, r.material);
      (acc.0 + [StoredAlert(id, sensor)], acc.1 + [id])
    else acc
  }

  function IngestRecords(identity: Identity, sensor: SensorId, acc: (seq<StoredAlert>, seq<AlertId>),
                         batch: seq<Record>)
    : (seq<StoredAlert>, seq<AlertId>)
  {
    if batch == [] then acc
    else
      var n := |batch| - 1;
      IngestOne(identity, sensor, IngestRecords(identity, sensor, acc, batch[..n]), batch[n])
  }

  function StateOf(srv: Server, sensor: SensorId): SensorState {
    if sensor in srv.sensors then srv.sensors[sensor] else SensorState(0, 0)
  }

  lemma {:induction false} IngestGrows(identity: Identity, sensor: SensorId, acc: (seq<StoredAlert>, seq<AlertId>),
                                       batch: seq<Record>)
    ensures var r := IngestRecords(identity, sensor, acc, batch);
            && acc.0 <= r.0 && acc.1 <= r.1
            && |r.0| - |acc.0| == |r.1| - |acc.1| <= |batch|
  {
    if batch != [] {
      IngestGrows(identity, sensor, acc, batch[..|batch| - 1]);
    }
  }

  function AlertRecords(batch: seq<Record>): nat {
    if batch == [] then 0 else AlertRecords(batch[..|batch| - 1]) + (if batch[|batch| - 1].Alert? then 1 else 0)
  }

  /** The positions of the alerts of a batch. */
  ghost function AlertPositions(batch: seq<Record>): set<nat> {
    set i: nat | i < |batch| && batch[i].Alert?
  }

  lemma {:induction false} AlertRecordsAre(batch: seq<Record>)
    ensures AlertRecords(batch) == |AlertPositions(batch)|
  {
    if batch != [] {
      var n := |batch| - 1;
      AlertRecordsAre(batch[..n]);
      assert AlertPositions(batch) == AlertPositions(batch[..n]) + (if batch[n].Alert? then {n} else {});
    }
  }

  /** ingest_suricata: one transaction per batch. */
  function Ingest(identity: Identity, srv: Server, sensor: SensorId, batch: seq<Record>): Server {
    var (alerts, outbox) := IngestRecords(identity, sensor, (srv.alerts, srv.outbox), batch);
    var state := StateOf(srv, sensor);
    IngestGrows(identity, sensor, (srv.alerts, srv.outbox), batch);
    Server(alerts, outbox,
           srv.sensors[sensor := SensorState(state.eventsSeen + |batch|,
                                             state.alertsAccepted + (|alerts| - |srv.alerts|))])
  }

  function Ids(alerts: seq<StoredAlert>): seq<AlertId> {
    seq(|alerts|, i requires 0 <= i < |alerts| => alerts[i].id)
  }

  function AlertsOf(alerts: seq<StoredAlert>, sensor: SensorId): nat {
    if alerts == [] then 0
    else AlertsOf(alerts[..|alerts| - 1], sensor) + (if alerts[|alerts| - 1].sensor == sensor then 1 else 0)
  }

  ghost predicate TablesSound(alerts: seq<StoredAlert>, outbox: seq<AlertId>) {
    && (forall i, j :: 0 <= i < j < |alerts| ==> alerts[i].id != alerts[j].id)
    && outbox == Ids(alerts)
  }

  /** Each identity stored once, one outbox row each, and every sensor's counter exact. */
  ghost predicate ServerSound(srv: Server) {
    && TablesSound(srv.alerts, srv.outbox)
    && (forall s: SensorId :: StateOf(srv, s).alertsAccepted == AlertsOf(srv.alerts, s))
  }

  /** Some record of the batch is an alert with this identity. */
  ghost predicate Carries(identity: Identity, sensor: SensorId, batch: seq<Record>, id: AlertId) {
    exists r :: r in batch && r.Alert? && identity(sensor, r.material) == id
  }

  lemma {:induction false} IngestStoresBatch(identity: Identity, sensor: SensorId,
                                             acc: (seq<StoredAlert>, seq<AlertId>), batch: seq<Record>)
    requires TablesSound(acc.0, acc.1)
    ensures var r := IngestRecords(identity, sensor, acc, batch);
            && TablesSound(r.0, r.1)
            && (forall id :: IsStored(r.0, id) <==> IsStored(acc.0, id) || Carries(identity, sensor, batch, id))
            && (forall s: SensorId :: AlertsOf(r.0, s) ==
                                      AlertsOf(acc.0, s) + (if s == sensor then |r.0| - |acc.0| else 0))
  {
    if batch != [] {
      var n := |batch| - 1;
      IngestStoresBatch(identity, sensor, acc, batch[..n]);
      var mid := IngestRecords(identity, sensor, acc, batch[..n]);
      IngestOneStores(identity, sensor, mid, batch[n]);
      assert batch == batch[..n] + [batch[n]];
      forall id
        ensures Carries(identity, sensor, batch, id) <==>
                Carries(identity, sensor, batch[..n], id) || Carries(identity, sensor, [batch[n]], id)
      {
      }
    }
  }

  lemma IngestOneStores(identity: Identity, sensor: SensorId, acc: (seq<StoredAlert>, seq<AlertId>), r: Record)
    requires TablesSound(acc.0, acc.1)
    ensures var next := IngestOne(identity, sensor, acc, r);
            && TablesSound(next.0, next.1)
            && (forall id :: IsStored(next.0, id) <==> IsStored(acc.0, id) || Carries(identity, sensor, [r], id))
            && (forall s: SensorId :: AlertsOf(next.0, s) ==
                                      AlertsOf(acc.0, s) + (if s == sensor then |next.0| - |acc.0| else 0))
  {
    var next := IngestOne(identity, sensor, acc, r);
    if next != acc {
      var id := identity(sensor, r.material);
      assert next.0[|acc.0|].id == id;
      assert next.0[..|acc.0|] == acc.0;
      forall x
        ensures IsStored(next.0, x) <==> IsStored(acc.0, x) || x == id
      {
        if i :| 0 <= i < |acc.0| && acc.0[i].id == x {
          assert next.0[i].id == x;
        }
      }
      assert r in [r];
    }
  }

  /** One POST keeps the server sound and stores exactly what the batch carries besides what it held. */
  lemma IngestKeepsSound(identity: Identity, srv: Server, sensor: SensorId, batch: seq<Record>)
    requires ServerSound(srv)
    ensures ServerSound(Ingest(identity, srv, sensor, batch))
    ensures forall id :: IsStored(Ingest(identity, srv, sensor, batch).alerts, id) <==>
                         IsStored(srv.alerts, id) || Carries(identity, sensor, batch, id)
  {
    IngestStoresBatch(identity, sensor, (srv.alerts, srv.outbox), batch);
    var srv' := Ingest(identity, srv, sensor, batch);
    forall s: SensorId
      ensures StateOf(srv', s).alertsAccepted == AlertsOf(srv'.alerts, s)
    {
      assert StateOf(srv, s).alertsAccepted == AlertsOf(srv.alerts, s);
    }
  }

  lemma {:induction false} KnownBatchAddsNothing(identity: Identity, sensor: SensorId,
                                                 acc: (seq<StoredAlert>, seq<AlertId>), batch: seq<Record>)
    requires forall r :: r in batch && r.Alert? ==> IsStored(acc.0, identity(sensor, r.material))
    ensures IngestRecords(identity, sensor, acc, batch) == acc
  {
    if batch != [] {
      var n := |batch| - 1;
      KnownBatchAddsNothing(identity, sensor, acc, batch[..n]);
    }
  }

  /** A batch that is delivered again stores no alert and publishes nothing. */
  lemma RedeliveryAddsNothing(identity: Identity, srv: Server, sensor: SensorId, batch: seq<Record>)
    requires ServerSound(srv)
    ensures var once := Ingest(identity, srv, sensor, batch);
            var twice := Ingest(identity, once, sensor, batch);
            && twice.alerts == once.alerts && twice.outbox == once.outbox
            && twice.sensors[sensor].alertsAccepted == once.sensors[sensor].alertsAccepted
  {
    var once := Ingest(identity, srv, sensor, batch);
    IngestKeepsSound(identity, srv, sensor, batch);
    forall r | r in batch && r.Alert?
      ensures IsStored(once.alerts, identity(sensor, r.material))
    {
      assert Carries(identity, sensor, batch, identity(sensor, r.material));
    }
    KnownBatchAddsNothing(identity, sensor, (once.alerts, once.outbox), batch);
  }
}
