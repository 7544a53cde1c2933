/**
 * The agent's traffic table: cumulative counter readings become unacknowledged bytes, which are
 * frozen under a request identifier and released when the server acknowledges that request.
 */
module TrafficStore {
  import opened Ids
  import opened Wrappers

  const MAX_INT64: int := 0x7FFF_FFFF_FFFF_FFFF

  datatype Bytes = Bytes(rx: int, tx: int) {
    function Plus(b: Bytes): Bytes { Bytes(rx + b.rx, tx + b.tx) }
    function Minus(b: Bytes): Bytes { Bytes(rx - b.rx, tx - b.tx) }
    predicate AtMost(b: Bytes) { rx <= b.rx && tx <= b.tx }
    predicate Natural() { 0 <= rx && 0 <= tx }
  }

  const NOTHING: Bytes := Bytes(0, 0)

  /** A counter reading, a usage record or an acknowledged total of one connection. */
  datatype Record = Record(id: Id, bytes: Bytes)

  datatype Row = Row(observed: Bytes, acknowledged: Bytes, unacknowledged: Bytes, sent: Bytes, request: Option<Id>)

  type Table = map<Id, Row>

  const NEW_ROW: Row := Row(NOTHING, NOTHING, NOTHING, NOTHING, None)

  function RowOf(t: Table, id: Id): Row {
    if id in t then t[id] else NEW_ROW
  }

  // ---------------------------------------------------------------- observing

  /** A reading below the previous one means the counter was reset in between. */
  function CumulativeDelta(current: int, observed: int): int {
    if current >= observed then current - observed else current
  }

  function Delta(current: Bytes, observed: Bytes): Bytes {
    Bytes(CumulativeDelta(current.rx, observed.rx), CumulativeDelta(current.tx, observed.tx))
  }

  /** Both directions of an accumulator stay within a signed 64-bit column. */
  predicate AddFits(a: Bytes, b: Bytes) {
    && a.Natural() && b.Natural()
    && a.rx <= MAX_INT64 - b.rx && a.tx <= MAX_INT64 - b.tx
  }

  function ObserveRecord(t: Table, r: Record): Result<Table> {
    var row := RowOf(t, r.id);
    var delta := Delta(r.bytes, row.observed);
    if r.id == "" || !r.bytes.Natural() || !AddFits(row.unacknowledged, delta) then Err
    else Ok(t[r.id := row.(observed := r.bytes, unacknowledged := row.unacknowledged.Plus(delta))])
  }

  /** A snapshot is taken over record by record, and not at all if one of them is refused. */
  function ObserveAll(t: Table, records: seq<Record>): Result<Table> {
    if records == [] then Ok(t)
    else
      var init, last := records[..|records| - 1], records[|records| - 1];
      match ObserveAll(t, init)
      case Err => Err
      case Ok(t') => ObserveRecord(t', last)
  }

  // ---------------------------------------------------------------- freezing

  predicate Eligible(row: Row) {
    row.request == None && (0 < row.unacknowledged.rx || 0 < row.unacknowledged.tx)
  }

  function Freeze(t: Table, request: Id, ids: set<Id>): Table {
    map id | id in t :: if id in ids then t[id].(sent := t[id].unacknowledged, request := Some(request)) else t[id]
  }

  lemma IdsOfMore(records: seq<Record>, r: Record)
    ensures IdsOf(records + [r]) == IdsOf(records) + [r.id]
  {
  }

  lemma FreezeOneMore(t: Table, request: Id, ids: seq<Id>, id: Id)
    requires id in t
    ensures Freeze(t, request, set i | i in ids + [id]) ==
            Freeze(t, request, set i | i in ids)[id := t[id].(sent := t[id].unacknowledged, request := Some(request))]
  {
  }

  /** `order by connection_id limit n`: ascending, eligible, and the first ones that are. */
  predicate FirstEligible(t: Table, limit: int, ids: seq<Id>) {
    && |ids| <= limit
    && (forall i, j :: 0 <= i < j < |ids| ==> Less(ids[i], ids[j]))
    && (forall i :: 0 <= i < |ids| ==> ids[i] in t && Eligible(t[ids[i]]))
    && (forall id :: id in t && Eligible(t[id]) && id !in ids ==>
          |ids| == limit && forall i :: 0 <= i < |ids| ==> Less(ids[i], id))
  }

  function Frozen(t: Table, request: Id): set<Id> {
    set id | id in t && t[id].request == Some(request)
  }

  /** The payload that the frozen rows of a request stand for. */
  function FrozenPayload(t: Table, request: Id): map<Id, Bytes> {
    map id | id in Frozen(t, request) :: t[id].sent
  }

  // ---------------------------------------------------------------- acknowledging

  predicate AckFits(row: Row, accepted: Bytes) {
    row.sent.AtMost(row.unacknowledged) && row.sent.AtMost(accepted)
  }

  function Release(row: Row, accepted: Bytes): Row {
    Row(row.observed, accepted, row.unacknowledged.Minus(row.sent), NOTHING, None)
  }

  function Acknowledge(t: Table, request: Id, ack: map<Id, Bytes>): Result<Table> {
    var frozen := Frozen(t, request);
    if frozen == {} then Ok(t)
    else if |ack| != |frozen| then Err
    else if exists id :: id in frozen && (id !in ack || !AckFits(t[id], ack[id])) then Err
    else Ok(map id | id in t :: if id in frozen then Release(t[id], ack[id]) else t[id])
  }

  /** An acknowledgement of a request that is still frozen must name exactly its connections, with no less than was sent. */
  lemma AcknowledgesIff(t: Table, request: Id, ack: map<Id, Bytes>)
    requires Frozen(t, request) != {}
    ensures Acknowledge(t, request, ack).Ok? <==>
            && ack.Keys == Frozen(t, request)
            && forall id :: id in ack.Keys ==>
                 t[id].sent.rx <= ack[id].rx && t[id].sent.tx <= ack[id].tx && t[id].sent.rx <= t[id].unacknowledged.rx && t[id].sent.tx <= t[id].unacknowledged.tx
  {
    var frozen := Frozen(t, request);
    if frozen <= ack.Keys && |ack| == |frozen| {
      assert |ack.Keys - frozen| == 0;
    }
  }

  function IdsOf(records: seq<Record>): seq<Id> {
    seq(|records|, i requires 0 <= i < |records| => records[i].id)
  }

  predicate NamesOnce(records: seq<Record>) {
    && (forall i :: 0 <= i < |records| ==> records[i].id != "" && records[i].bytes.Natural())
    && (forall i, j :: 0 <= i < j < |records| ==> records[i].id != records[j].id)
  }

  function MapOf(records: seq<Record>): map<Id, Bytes> {
    if records == [] then map[]
    else
      var init, last := records[..|records| - 1], records[|records| - 1];
      MapOf(init)[last.id := last.bytes]
  }

  lemma {:induction false} MapOfKeys(records: seq<Record>)
    ensures MapOf(records).Keys == set r | r in records :: r.id
  {
    if records != [] {
      var init, last := records[..|records| - 1], records[|records| - 1];
      MapOfKeys(init);
      assert records == init + [last];
    }
  }

  class Store {
    var table: Table

    constructor ()
      ensures table == map[]
    {
      table := map[];
    }

    /** One transaction: all records are taken over or the table stays as it was. */
    method ObserveTraffic(records: seq<Record>) returns (ok: bool)
      modifies this
      ensures match ObserveAll(old(table), records)
              case Ok(t) => ok && table == t
              case Err => !ok && table == old(table)
    {
      var working := table;
      for i := 0 to |records|
        invariant table == old(table)
        invariant ObserveAll(table, records[..i]) == Ok(working)
      {
        var record := records[i];
        assert records[..i + 1][..i] == records[..i];
        var row := RowOf(working, record.id);
        var delta := Delta(record.bytes, row.observed);
        if record.id == "" || !record.bytes.Natural() || !AddFits(row.unacknowledged, delta) {
          ObserveStaysErr(table, records, i + 1);
          return false;
        }
        working := working[record.id := row.(observed := record.bytes, unacknowledged := row.unacknowledged.Plus(delta))];
      }
      assert records[..|records|] == records;
      table := working;
      return true;
    }

    /** The connections of the next request: the first `limit` eligible ones in identifier order. */
    method SelectEligible(limit: nat) returns (ids: seq<Id>)
      ensures FirstEligible(table, limit, ids)
    {
      ids := [];
      var left := set id | id in table && Eligible(table[id]);
      while left != {} && |ids| < limit
        invariant |ids| <= limit
        invariant forall i, j :: 0 <= i < j < |ids| ==> Less(ids[i], ids[j])
        invariant forall i :: 0 <= i < |ids| ==> ids[i] in table && Eligible(table[ids[i]])
        invariant forall id :: id in left ==> id in table && Eligible(table[id])
        invariant forall id :: id in table && Eligible(table[id]) ==> id in left || id in ids
        invariant forall id, i :: id in left && 0 <= i < |ids| ==> Less(ids[i], id)
        decreases |left|
      {
        var id := Least(left);
        Irreflexive(id);
        left, ids := left - {id}, ids + [id];
      }
    }

    /** `PrepareUsageRequest`: freezes what the first eligible connections owe under one request. */
    method PrepareUsageRequest(request: Id, limit: int) returns (r: Result<seq<Record>>)
      modifies this
      ensures request == "" ==> r == Err && table == old(table)
      ensures request != "" ==> r.Ok?
      ensures r.Ok? ==> FirstEligible(old(table), if limit <= 0 then 100 else limit, IdsOf(r.value))
      ensures r.Ok? ==> table == Freeze(old(table), request, set id | id in IdsOf(r.value))
      ensures r.Ok? ==> forall i :: 0 <= i < |r.value| ==> r.value[i].bytes == RowOf(old(table), r.value[i].id).unacknowledged
      ensures r.Ok? ==> forall i :: 0 <= i < |r.value| ==> 0 < r.value[i].bytes.rx || 0 < r.value[i].bytes.tx
      ensures r == Ok([]) && limit != 0 ==> forall id :: id in table && table[id].request.None? ==> table[id].unacknowledged.AtMost(NOTHING)
    {
      if request == "" {
        return Err;
      }
      var ids := SelectEligible(if limit <= 0 then 100 else limit);
      var batch: seq<Record> := [];
      var working := table;
      for i := 0 to |ids|
        invariant IdsOf(batch) == ids[..i] && table == old(table)
        invariant forall k :: 0 <= k < i ==> batch[k].bytes == RowOf(table, ids[k]).unacknowledged
        invariant working == Freeze(table, request, set id | id in ids[..i])
      {
        var id := ids[i];
        FreezeOneMore(table, request, ids[..i], id);
        IdsOfMore(batch, Record(id, table[id].unacknowledged));
        batch := batch + [Record(id, table[id].unacknowledged)];
        assert ids[..i + 1] == ids[..i] + [id];
        working := working[id := table[id].(sent := table[id].unacknowledged, request := Some(request))];
      }
      assert ids[..|ids|] == ids;
      table := working;
      return Ok(batch);
    }

    /** `AcknowledgeUsage`: releases a request exactly when the acknowledgement matches its frozen rows. */
    method AcknowledgeUsage(request: Id, records: seq<Record>) returns (ok: bool)
      modifies this
      ensures ok <==> NamesOnce(records) && Acknowledge(old(table), request, MapOf(records)).Ok?
      ensures ok ==> table == Acknowledge(old(table), request, MapOf(records)).value
      ensures !ok ==> table == old(table)
    {
      var read := ReadRecords(records);
      if read.Err? {
        return false;
      }
      var ack := read.value;
      var frozen := Frozen(table, request);
      if frozen == {} {
        return true;
      }
      if |ack| != |frozen| {
        return false;
      }
      var left, working := frozen, table;
      while left != {}
        invariant left <= frozen && table == old(table)
        invariant forall id :: id in frozen - left ==> id in ack && AckFits(table[id], ack[id])
        invariant working == map id | id in table :: if id in frozen - left then Release(table[id], ack[id]) else table[id]
        decreases left
      {
        var id :| id in left;
        if id !in ack || !AckFits(table[id], ack[id]) {
          return false;
        }
        left, working := left - {id}, working[id := Release(table[id], ack[id])];
      }
      table := working;
      return true;
    }
  }

  /** An acknowledgement names each connection once, with natural totals. */
  method ReadRecords(records: seq<Record>) returns (r: Result<map<Id, Bytes>>)
    ensures r == if NamesOnce(records) then Ok(MapOf(records)) else Err
  {
    var ack: map<Id, Bytes> := map[];
    for i := 0 to |records|
      invariant NamesOnce(records[..i]) && ack == MapOf(records[..i])
    {
      if records[i].id == "" || !records[i].bytes.Natural() || records[i].id in ack {
        NotValid(records, i);
        return Err;
      }
      ValidSoFar(records, i);
      ack := ack[records[i].id := records[i].bytes];
    }
    assert records[..|records|] == records;
    return Ok(ack);
  }

  lemma {:induction false} ObserveStaysErr(t: Table, records: seq<Record>, n: nat)
    requires n <= |records| && ObserveAll(t, records[..n]).Err?
    ensures ObserveAll(t, records).Err?
    decreases |records| - n
  {
    if n == |records| {
      assert records[..n] == records;
    } else {
      assert records[..n + 1][..n] == records[..n];
      ObserveStaysErr(t, records, n + 1);
    }
  }

  lemma ValidSoFar(records: seq<Record>, n: nat)
    requires n < |records| && NamesOnce(records[..n])
    requires records[n].id != "" && records[n].bytes.Natural() && records[n].id !in MapOf(records[..n])
    ensures NamesOnce(records[..n + 1])
    ensures MapOf(records[..n + 1]) == MapOf(records[..n])[records[n].id := records[n].bytes]
  {
    MapOfKeys(records[..n]);
    assert records[..n + 1][..n] == records[..n];
    forall k | 0 <= k < n ensures records[k].id != records[n].id {
      assert records[k] in records[..n];
    }
  }

  lemma NotValid(records: seq<Record>, n: nat)
    requires n < |records|
    requires records[n].id == "" || !records[n].bytes.Natural() || records[n].id in MapOf(records[..n])
    ensures !NamesOnce(records)
  {
    MapOfKeys(records[..n]);
    if records[n].id in MapOf(records[..n]) {
      var r :| r in records[..n] && r.id == records[n].id;
      var k :| 0 <= k < n && records[k] == r;
      assert records[k].id == records[n].id;
    }
  }

  /** The least identifier of a non-empty set. */
  method Least(ids: set<Id>) returns (least: Id)
    requires ids != {}
    ensures least in ids && forall id :: id in ids && id != least ==> Less(least, id)
  {
    var left := ids;
    least :| least in left;
    left := left - {least};
    while left != {}
      invariant left <= ids && least in ids && least !in left
      invariant forall id :: id in ids && id !in left && id != least ==> Less(least, id)
      decreases left
    {
      var id :| id in left;
      left := left - {id};
      Total(least, id);
      if Less(id, least) {
        forall k | k in ids && k !in left && k != id ensures Less(id, k) {
          if k != least { Transitive(id, least, k); }
        }
        least := id;
      }
    }
  }
}
