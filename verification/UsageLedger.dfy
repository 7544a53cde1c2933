/**
 * The server's usage accounting: a batch is credited once per request identifier, and every
 * delivery of it is answered with the current totals of the connections it names.
 */
module UsageLedger {
  import opened Ids
  import opened Wrappers
  import opened TrafficStore

  type Payload = map<Id, Bytes>

  function AmountIn(p: Payload, id: Id): Bytes {
    if id in p then p[id] else NOTHING
  }

  /** Adds a batch to the totals. */
  function Credit(totals: Payload, batch: Payload): Payload {
    map id | id in totals.Keys + batch.Keys :: AmountIn(totals, id).Plus(AmountIn(batch, id))
  }

  /** What `decodeUsage` lets through: a sum of both directions must fit a signed 64-bit integer. */
  predicate Acceptable(records: seq<Record>) {
    && records != [] && NamesOnce(records)
    && forall i :: 0 <= i < |records| ==> records[i].bytes.tx <= MAX_INT64 - records[i].bytes.rx
  }

  /** `decodeUsage` accepts exactly the acceptable batches. */
  method DecodeUsage(records: seq<Record>) returns (ok: bool)
    ensures ok <==> Acceptable(records)
  {
    var seen: set<Id> := {};
    for i := 0 to |records|
      invariant seen == set r | r in records[..i] :: r.id
      invariant NamesOnce(records[..i])
      invariant forall k :: 0 <= k < i ==> records[k].bytes.tx <= MAX_INT64 - records[k].bytes.rx
    {
      var record := records[i];
      MapOfKeys(records[..i]);
      assert records[..i + 1] == records[..i] + [record];
      if record.id == "" || record.bytes.tx < 0 || record.bytes.rx < 0 || record.id in seen {
        NotValid(records, i);
        return false;
      }
      if record.bytes.tx > MAX_INT64 - record.bytes.rx {
        return false;
      }
      seen := seen + {record.id};
    }
    assert records[..|records|] == records;
    return records != [];
  }

  datatype Reply = Accepted(totals: Payload) | Rejected | Ignored

  datatype Books = Books(totals: Payload, credited: map<Id, Payload>, inbox: map<Id, Payload>)

  /** A batch that is new, well formed and about the node's own connections is credited; any other changes no total. */
  function AfterCredit(owned: set<Id>, b: Books, request: Id, records: seq<Record>): Books {
    if request !in b.credited && Acceptable(records) && MapOf(records).Keys <= owned
    then b.(totals := Credit(b.totals, MapOf(records)), credited := b.credited[request := MapOf(records)])
    else b
  }

  /**
   * What handling a delivery does: a cached answer is repeated if the inbox can be read; otherwise a batch
   * is accepted only once it is credited, with the totals of its connections, and then the answer is cached.
   */
  ghost predicate Handles(owned: set<Id>, b: Books, request: Id, records: seq<Record>, readable: bool, r: Reply, b': Books) {
    if request == "" then r == Ignored && b' == b
    else if readable && request in b.inbox then r == Accepted(b.inbox[request]) && b' == b
    else
      var credited := AfterCredit(owned, b, request, records);
      match r
      case Accepted(answer) =>
        && request in credited.credited && Acceptable(records)
        && answer == TotalsFor(credited.totals, credited.credited[request])
        && b' == credited.(inbox := b.inbox[request := answer])
      case Rejected => b' == credited
      case Ignored => false
  }

  class Ledger {
    const owned: set<Id>              // connections of the node instance
    var totals: Payload
    var credited: map<Id, Payload>    // usage records, by request
    var inbox: map<Id, Payload>       // cached acknowledgements, by request

    constructor (owned: set<Id>)
      ensures this.owned == owned && totals == map[] && credited == map[] && inbox == map[]
    {
      this.owned, totals, credited, inbox := owned, map[], map[], map[];
    }

    ghost function Contents(): Books
      reads this
    {
      Books(totals, credited, inbox)
    }

    /**
     * `ApplyUsageRecords`: one transaction that credits a new request and leaves a known one alone.
     * A record that repeats a connection violates the key of the usage records.
     */
    method ApplyUsageRecords(request: Id, records: seq<Record>) returns (r: Result<Payload>)
      modifies this`totals, this`credited
      ensures request == "" || records == [] ==> r == Err
      ensures request != "" && records != [] && request in old(credited) ==>
                r.Ok? && r.value.Keys == old(credited)[request].Keys && forall id :: id in r.value ==> r.value[id] == AmountIn(old(totals), id)
      ensures request != "" && records != [] && request !in old(credited) ==>
                (r.Ok? <==> NamesOnce(records) && MapOf(records).Keys <= owned)
      ensures r.Err? || request in old(credited) ==> totals == old(totals) && credited == old(credited)
      ensures r.Ok? && request !in old(credited) ==>
                && totals == Credit(old(totals), MapOf(records))
                && credited == old(credited)[request := MapOf(records)]
                && r.value.Keys == MapOf(records).Keys
                && forall id :: id in r.value ==>
                     && r.value[id].rx == AmountIn(old(totals), id).rx + MapOf(records)[id].rx
                     && r.value[id].tx == AmountIn(old(totals), id).tx + MapOf(records)[id].tx
      ensures r.Ok? ==> request in credited && r.value == TotalsFor(totals, credited[request])
    {
      if request == "" || records == [] {
        return Err;
      }
      if request in credited {
        return Ok(TotalsFor(totals, credited[request]));
      }
      var ok, working, rows := CreditRecords(owned, totals, records);
      if !ok {
        return Err;
      }
      totals, credited := working, credited[request := rows];
      return Ok(TotalsFor(totals, rows));
    }

    /**
     * `HandleUsage`: a cached answer is repeated if the inbox can be read; otherwise the batch is checked,
     * credited if new, and its answer cached. `refuses` says that writing the cache fails after the credit was committed.
     */
    method HandleUsage(request: Id, records: seq<Record>, readable: bool, refuses: bool) returns (r: Reply)
      modifies this
      ensures Handles(owned, old(Contents()), request, records, readable, r, Contents())
      ensures r.Accepted? <==> request != "" && ((readable && request in old(inbox)) || (!refuses && Acceptable(records) && request in credited))
    {
      if request == "" {
        return Ignored;
      }
      if readable && request in inbox {
        return Accepted(inbox[request]);
      }
      var ok := DecodeUsage(records);
      if !ok {
        return Rejected;
      }
      var applied := ApplyUsageRecords(request, records);
      if applied.Err? {
        return Rejected;
      }
      if refuses {
        return Rejected;
      }
      inbox := inbox[request := applied.value];
      return Accepted(applied.value);
    }
  }

  /**
   * The loop of the transaction: each record must name a connection of the node and must not repeat
   * one, since the usage records are keyed by request and connection.
   */
  method CreditRecords(owned: set<Id>, totals: Payload, records: seq<Record>) returns (ok: bool, working: Payload, rows: Payload)
    ensures ok <==> NamesOnce(records) && MapOf(records).Keys <= owned
    ensures ok ==> rows == MapOf(records) && working == Credit(totals, rows)
  {
    working, rows := totals, map[];
    for i := 0 to |records|
      invariant NamesOnce(records[..i])
      invariant rows == MapOf(records[..i]) && rows.Keys <= owned
      invariant working == Credit(totals, rows)
    {
      var record := records[i];
      if record.id == "" || !record.bytes.Natural() || record.id in rows {
        NotValid(records, i);
        return false, working, rows;
      }
      if record.id !in owned {
        MapOfKeys(records);
        assert record.id in MapOf(records);
        return false, working, rows;
      }
      ValidSoFar(records, i);
      CreditOne(totals, rows, record);
      working := working[record.id := AmountIn(working, record.id).Plus(record.bytes)];
      rows := rows[record.id := record.bytes];
    }
    assert records[..|records|] == records;
    ok := true;
  }

  lemma CreditOne(totals: Payload, batch: Payload, record: Record)
    requires record.id !in batch
    ensures Credit(totals, batch[record.id := record.bytes]) ==
            Credit(totals, batch)[record.id := AmountIn(Credit(totals, batch), record.id).Plus(record.bytes)]
  {
  }

  /** The totals an acknowledgement reports: one per connection of the request. */
  function TotalsFor(totals: Payload, batch: Payload): Payload {
    map id | id in batch :: AmountIn(totals, id)
  }
}
