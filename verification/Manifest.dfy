/**
 * The server side of one credential manifest: the effective connections of a node are
 * sorted by identifier, filtered for a full or an incremental pass, and cut into pages.
 */
module Manifest {
  import opened Ids

  const DEFAULT_PAGE_SIZE: int := 100
  const MAX_PAGE_SIZE: int := 1000

  datatype Operation = Upsert | Delete

  /** The effective desired state of one credential. */
  datatype Stored = Stored(id: Id, active: bool, version: int, material: string)

  datatype Change = Change(id: Id, op: Operation, version: int, material: string)

  datatype Query = Query(full: bool, since: int, from: Id, pageSize: int)

  datatype Response = Response(start: int, full: bool, changes: seq<Change>)

  datatype Error = InvalidPageSize | InvalidConnectionId | UnsortedChanges

  /** A value, or the reason why it was refused. */
  datatype Checked<T> = Passed(value: T) | Refused(error: Error)

  function NormalizePageSize(pageSize: int): int {
    if pageSize == 0 then DEFAULT_PAGE_SIZE else pageSize
  }

  predicate ValidPageSize(pageSize: int) {
    1 <= pageSize <= MAX_PAGE_SIZE
  }

  /** A deletion carries no credential. */
  function ChangeOf(c: Stored): Change {
    if c.active then Change(c.id, Upsert, c.version, c.material) else Change(c.id, Delete, c.version, "")
  }

  predicate Selected(c: Stored, q: Query) {
    && (q.from == "" || Less(q.from, c.id))
    && (if q.full then c.active else 0 < c.version && q.since <= c.version)
  }

  /** The changes that a query asks for, in the order of `s`. */
  function Select(s: seq<Stored>, q: Query): seq<Change> {
    if s == [] then []
    else
      var init, last := s[..|s| - 1], s[|s| - 1];
      if Selected(last, q) then Select(init, q) + [ChangeOf(last)] else Select(init, q)
  }

  function Take<T>(s: seq<T>, n: nat): seq<T> {
    if n < |s| then s[..n] else s
  }

  ghost predicate Ascending(s: seq<Stored>) {
    forall i, j :: 0 <= i < j < |s| ==> Less(s[i].id, s[j].id)
  }

  ghost predicate AscendingChanges(s: seq<Change>) {
    forall i, j :: 0 <= i < j < |s| ==> Less(s[i].id, s[j].id)
  }

  ghost predicate DistinctIds(s: seq<Stored>) {
    forall i, j :: 0 <= i < j < |s| ==> s[i].id != s[j].id
  }

  ghost predicate NamedIds(s: seq<Stored>) {
    forall i :: 0 <= i < |s| ==> s[i].id != ""
  }

  // ---------------------------------------------------------------- sorting

  function Insert(c: Stored, s: seq<Stored>): seq<Stored> {
    if s == [] || Less(c.id, s[0].id) then [c] + s else [s[0]] + Insert(c, s[1..])
  }

  /** `sort.Slice` by connection identifier. */
  function SortById(s: seq<Stored>): seq<Stored> {
    if s == [] then [] else Insert(s[0], SortById(s[1..]))
  }

  lemma {:induction false} InsertPermutes(c: Stored, s: seq<Stored>)
    ensures multiset(Insert(c, s)) == multiset(s) + multiset{c}
  {
    if s != [] && !Less(c.id, s[0].id) {
      InsertPermutes(c, s[1..]);
      assert s == [s[0]] + s[1..];
    }
  }

  lemma {:induction false} SortPermutes(s: seq<Stored>)
    ensures multiset(SortById(s)) == multiset(s)
  {
    if s != [] {
      SortPermutes(s[1..]);
      InsertPermutes(s[0], SortById(s[1..]));
      assert s == [s[0]] + s[1..];
    }
  }

  /** Sorting neither loses nor invents connections. */
  lemma SortMembers(s: seq<Stored>)
    ensures forall c :: c in SortById(s) <==> c in s
  {
    SortPermutes(s);
    forall c ensures c in SortById(s) <==> c in s {
      assert c in SortById(s) <==> c in multiset(SortById(s));
      assert c in s <==> c in multiset(s);
    }
  }

  lemma {:induction false} InsertAscends(c: Stored, s: seq<Stored>)
    requires Ascending(s) && (forall i :: 0 <= i < |s| ==> s[i].id != c.id)
    ensures Ascending(Insert(c, s))
    ensures Insert(c, s) != []
    ensures Insert(c, s)[0] == c || (s != [] && Insert(c, s)[0] == s[0])
  {
    if s == [] {
    } else if Less(c.id, s[0].id) {
      forall j | 0 <= j < |s| ensures Less(c.id, s[j].id) {
        if j > 0 { Transitive(c.id, s[0].id, s[j].id); }
      }
    } else {
      Total(c.id, s[0].id);
      var t := s[1..];
      InsertAscends(c, t);
      var r := Insert(c, t);
      forall j | 0 <= j < |r| ensures Less(s[0].id, r[j].id) {
        if j > 0 { Transitive(s[0].id, r[0].id, r[j].id); }
      }
    }
  }

  /** Sorting connections with distinct identifiers puts them in strictly ascending order. */
  lemma {:induction false} SortAscends(s: seq<Stored>)
    requires DistinctIds(s)
    ensures Ascending(SortById(s))
  {
    if s != [] {
      var t := s[1..];
      SortAscends(t);
      SortMembers(t);
      var r := SortById(t);
      forall i | 0 <= i < |r| ensures r[i].id != s[0].id {
        assert r[i] in t;
        var k :| 0 <= k < |t| && t[k] == r[i];
        assert s[k + 1] == t[k];
      }
      InsertAscends(s[0], r);
    }
  }

  /** An unnamed connection sorts first. */
  lemma {:induction false} UnnamedFirst(s: seq<Stored>)
    requires !NamedIds(s)
    ensures SortById(s) != [] && SortById(s)[0].id == ""
  {
    var t := s[1..];
    if s[0].id != "" {
      assert !NamedIds(t) by {
        var i :| 0 <= i < |s| && s[i].id == "";
        assert t[i - 1].id == "";
      }
      UnnamedFirst(t);
    } else if !NamedIds(t) {
      UnnamedFirst(t);
    } else {
      SortMembers(t);
      var r := SortById(t);
      if r != [] {
        assert r[0] in t;
      }
    }
  }

  // ---------------------------------------------------------------- selection

  lemma {:induction false} SelectMembers(s: seq<Stored>, q: Query)
    ensures forall c :: c in s && Selected(c, q) ==> ChangeOf(c) in Select(s, q)
    ensures forall ch :: ch in Select(s, q) ==> exists c :: c in s && Selected(c, q) && ChangeOf(c) == ch
  {
    if s != [] {
      var init, last := s[..|s| - 1], s[|s| - 1];
      SelectMembers(init, q);
      assert s == init + [last];
    }
  }

  lemma {:induction false} SelectAscends(s: seq<Stored>, q: Query)
    requires Ascending(s)
    ensures AscendingChanges(Select(s, q))
  {
    if s != [] {
      var init, last := s[..|s| - 1], s[|s| - 1];
      SelectAscends(init, q);
      SelectMembers(init, q);
      var r := Select(init, q);
      forall i | 0 <= i < |r| ensures Less(r[i].id, last.id) {
        assert r[i] in r;
        var c :| c in init && ChangeOf(c) == r[i];
        var k :| 0 <= k < |init| && init[k] == c;
        assert Less(s[k].id, s[|s| - 1].id);
      }
    }
  }

  lemma {:induction false} SelectPrefix(s: seq<Stored>, q: Query, n: nat)
    requires n <= |s|
    ensures Select(s[..n], q) <= Select(s, q)
    decreases |s| - n
  {
    if n == |s| {
      assert s[..n] == s;
    } else {
      assert s[..n + 1][..n] == s[..n];
      SelectPrefix(s, q, n + 1);
    }
  }

  lemma {:induction false} NoneAbove(s: seq<Stored>, q: Query)
    requires q.from != "" && forall i :: 0 <= i < |s| ==> !Less(q.from, s[i].id)
    ensures Select(s, q) == []
  {
    if s != [] {
      NoneAbove(s[..|s| - 1], q);
    }
  }

  lemma LastIsHighest(s: seq<Stored>)
    requires Ascending(s) && s != []
    ensures forall i :: 0 <= i < |s| ==> !Less(s[|s| - 1].id, s[i].id)
  {
    var last := s[|s| - 1].id;
    forall i | 0 <= i < |s| ensures !Less(last, s[i].id) {
      Irreflexive(last);
      if i < |s| - 1 && Less(last, s[i].id) { Transitive(last, s[i].id, last); }
    }
  }

  /** Every change selected from a prefix lies below the last connection. */
  lemma SelectedBelowLast(s: seq<Stored>, q: Query, n: nat)
    requires Ascending(s) && s != [] && n < |Select(s[..|s| - 1], q)|
    ensures Less(Select(s[..|s| - 1], q)[n].id, s[|s| - 1].id)
  {
    var init := s[..|s| - 1];
    SelectMembers(init, q);
    var ch := Select(init, q)[n];
    assert ch in Select(init, q);
    var c :| c in init && ChangeOf(c) == ch;
    var k :| 0 <= k < |init| && init[k] == c;
    assert Less(s[k].id, s[|s| - 1].id);
  }

  /** Moving the page cursor to a selected connection leaves exactly the ones after it. */
  lemma {:induction false} SelectAfter(s: seq<Stored>, q: Query, n: nat)
    requires Ascending(s) && NamedIds(s) && q.from == "" && 0 < n <= |Select(s, q)|
    ensures Select(s, q.(from := Select(s, q)[n - 1].id)) == Select(s, q)[n..]
  {
    var init, last := s[..|s| - 1], s[|s| - 1];
    var r := Select(init, q);
    if n == |r| + 1 {
      LastIsHighest(s);
      NoneAbove(s, q.(from := last.id));
    } else {
      SelectAfter(init, q, n);
      SelectedBelowLast(s, q, n - 1);
      assert Selected(last, q.(from := r[n - 1].id)) == Selected(last, q);
    }
  }

  // ---------------------------------------------------------------- operations

  /** The page a query asks for: the first selected changes in identifier order. */
  function PageOf(credentials: seq<Stored>, q: Query): seq<Change>
    requires 1 <= q.pageSize
  {
    Take(Select(SortById(credentials), q), q.pageSize)
  }

  /** `ListSyncChanges`: one page of the manifest, or an error for an unnamed connection. */
  method ListSyncChanges(credentials: seq<Stored>, q: Query) returns (r: Checked<seq<Change>>)
    requires 1 <= q.pageSize
    ensures r == if NamedIds(credentials) then Passed(PageOf(credentials, q)) else Refused(InvalidConnectionId)
  {
    var sorted := SortById(credentials);
    SortMembers(credentials);
    ghost var named := NamedIds(credentials);
    if !named { UnnamedFirst(credentials); }
    var changes: seq<Change> := [];
    for i := 0 to |sorted|
      invariant named || i == 0
      invariant changes == Select(sorted[..i], q)
      invariant |changes| < q.pageSize
    {
      var credential := sorted[i];
      if credential.id == "" {
        assert credential in credentials;
        return Refused(InvalidConnectionId);
      }
      assert sorted[..i + 1][..i] == sorted[..i];
      if Selected(credential, q) {
        changes := changes + [ChangeOf(credential)];
        if |changes| == q.pageSize {
          SelectPrefix(sorted, q, i + 1);
          assert changes == Select(sorted[..i + 1], q);
          assert Take(Select(sorted, q), q.pageSize) == changes;
          return Passed(changes);
        }
      }
    }
    assert sorted[..|sorted|] == sorted;
    return Passed(changes);
  }

  ghost predicate ValidResponse(changes: seq<Change>, pageSize: int) {
    && ValidPageSize(pageSize)
    && |changes| <= pageSize
    && (forall i :: 0 <= i < |changes| ==> changes[i].id != "")
    && AscendingChanges(changes)
  }

  /** `ValidateResponse`: accepts exactly the pages that are small enough, named and strictly ascending. */
  method ValidateResponse(changes: seq<Change>, pageSize: int) returns (r: Checked<()>)
    ensures r.Passed? <==> ValidResponse(changes, pageSize)
    ensures r.Refused? && r.error == InvalidPageSize <==> pageSize < 1 || pageSize > 1000 || |changes| > pageSize
  {
    if !ValidPageSize(pageSize) || |changes| > pageSize {
      return Refused(InvalidPageSize);
    }
    var previous := "";
    for i := 0 to |changes|
      invariant forall k :: 0 <= k < i ==> changes[k].id != ""
      invariant forall k, l :: 0 <= k < l < i ==> Less(changes[k].id, changes[l].id)
      invariant previous == if i == 0 then "" else changes[i - 1].id
    {
      if changes[i].id == "" {
        return Refused(InvalidConnectionId);
      }
      if previous != "" && !Less(previous, changes[i].id) {
        return Refused(UnsortedChanges);
      }
      forall k | 0 <= k < i ensures Less(changes[k].id, changes[i].id) {
        if k < i - 1 { Transitive(changes[k].id, previous, changes[i].id); }
      }
      previous := changes[i].id;
    }
    return Passed(());
  }

  /** Every page cut from a listing with distinct, named identifiers is a valid response. */
  lemma PageIsValid(credentials: seq<Stored>, q: Query)
    requires ValidPageSize(q.pageSize) && NamedIds(credentials) && DistinctIds(credentials)
    ensures ValidResponse(PageOf(credentials, q), q.pageSize)
  {
    var sorted := SortById(credentials);
    SortAscends(credentials);
    SortMembers(credentials);
    SelectAscends(sorted, q);
    SelectMembers(sorted, q);
    var page := PageOf(credentials, q);
    forall i | 0 <= i < |page| ensures page[i].id != "" {
      assert page[i] in Select(sorted, q);
      var c :| c in sorted && ChangeOf(c) == page[i];
    }
  }

  /** `BuildResponse`: validates the request, stamps the page with the clock and validates the outcome. */
  method BuildResponse(credentials: seq<Stored>, request: Query, now: int) returns (r: Checked<Response>)
    ensures r.Passed? ==> ValidResponse(r.value.changes, request.pageSize)
    ensures request.pageSize < 1 || request.pageSize > 1000 ==> r == Refused(InvalidPageSize)
    ensures 1 <= request.pageSize <= 1000 && !NamedIds(credentials) ==> r == Refused(InvalidConnectionId)
    ensures 1 <= request.pageSize <= 1000 && NamedIds(credentials) && DistinctIds(credentials) ==>
              r == Passed(Response(now, request.full, PageOf(credentials, request)))
  {
    if !ValidPageSize(request.pageSize) {
      return Refused(InvalidPageSize);
    }
    var listed := ListSyncChanges(credentials, request);
    if listed.Refused? {
      return Refused(listed.error);
    }
    var checked := ValidateResponse(listed.value, request.pageSize);
    if DistinctIds(credentials) {
      PageIsValid(credentials, request);
    }
    if checked.Refused? {
      return Refused(checked.error);
    }
    return Passed(Response(now, request.full, listed.value));
  }

  /**
   * The paging loop of `Engine.Run` against a server that does not change: the pages put
   * together are the filtered listing in identifier order, after |listing| / pageSize + 1 fetches.
   */
  method FetchAllPages(credentials: seq<Stored>, full: bool, since: int, pageSize: int)
    returns (changes: seq<Change>, fetches: nat)
    requires ValidPageSize(pageSize) && NamedIds(credentials) && DistinctIds(credentials)
    ensures changes == Select(SortById(credentials), Query(full, since, "", pageSize))
    ensures fetches == |changes| / pageSize + 1
  {
    ghost var q := Query(full, since, "", pageSize);
    ghost var sorted := SortById(credentials);
    ghost var listing := Select(sorted, q);
    SortedListing(credentials);
    var from := "";
    changes, fetches := [], 0;
    var more := true;
    while more
      invariant |changes| <= |listing| && changes == listing[..|changes|]
      invariant Select(sorted, q.(from := from)) == listing[|changes|..]
      invariant more ==> |changes| % pageSize == 0 && fetches == |changes| / pageSize
      invariant !more ==> changes == listing && fetches == |changes| / pageSize + 1
      decreases more, |listing| - |changes|
    {
      var response := BuildResponse(credentials, Query(full, since, from, pageSize), 0);
      var page := response.value.changes;
      NextPage(sorted, q, |changes|, from);
      AddPage(|changes|, pageSize, |page|);
      ghost var n := |changes| + |page|;
      changes, fetches := changes + page, fetches + 1;
      assert changes == listing[..n];
      if page != [] {
        from := page[|page| - 1].id;
      }
      assert Select(sorted, q.(from := from)) == listing[n..];
      if |page| < pageSize {
        more := false;
      }
    }
  }

  lemma SortedListing(credentials: seq<Stored>)
    requires NamedIds(credentials) && DistinctIds(credentials)
    ensures Ascending(SortById(credentials)) && NamedIds(SortById(credentials))
  {
    SortAscends(credentials);
    SortMembers(credentials);
    var sorted := SortById(credentials);
    forall i | 0 <= i < |sorted| ensures sorted[i].id != "" {
      assert sorted[i] in credentials;
    }
  }

  /** A page extends the changes read so far, and its last identifier is the next page cursor. */
  lemma NextPage(s: seq<Stored>, q: Query, n: nat, from: Id)
    requires Ascending(s) && NamedIds(s) && q.from == "" && 1 <= q.pageSize && n <= |Select(s, q)|
    requires Select(s, q.(from := from)) == Select(s, q)[n..]
    ensures var page := Take(Select(s, q.(from := from)), q.pageSize);
            var n' := n + |page|;
            && n' <= |Select(s, q)|
            && Select(s, q)[..n] + page == Select(s, q)[..n']
            && (|page| < q.pageSize ==> n' == |Select(s, q)| && Select(s, q)[..n'] == Select(s, q))
            && (page != [] ==> Select(s, q.(from := page[|page| - 1].id)) == Select(s, q)[n'..])
            && (page == [] ==> Select(s, q)[n'..] == Select(s, q)[n..])
  {
    var listing := Select(s, q);
    var page := Take(listing[n..], q.pageSize);
    if page != [] {
      assert page[|page| - 1] == listing[n + |page| - 1];
      SelectAfter(s, q, n + |page|);
    }
  }

  /** The listing that the pages add up to: every selected connection once, in identifier order. */
  lemma ListingIsExact(credentials: seq<Stored>, q: Query)
    requires DistinctIds(credentials)
    ensures var listing := Select(SortById(credentials), q);
            && AscendingChanges(listing)
            && (forall c :: c in credentials ==> (Selected(c, q) <==> ChangeOf(c) in listing))
            && (forall ch :: ch in listing ==> exists c :: c in credentials && ChangeOf(c) == ch)
  {
    var sorted := SortById(credentials);
    SortAscends(credentials);
    SortMembers(credentials);
    SelectAscends(sorted, q);
    SelectMembers(sorted, q);
    forall c | c in credentials && ChangeOf(c) in Select(sorted, q) ensures Selected(c, q) {
      var d :| d in sorted && Selected(d, q) && ChangeOf(d) == ChangeOf(c);
      assert d in credentials;
    }
  }

  lemma AddPage(n: nat, d: int, r: nat)
    requires 0 < d && n % d == 0 && r <= d
    ensures r < d ==> (n + r) / d == n / d
    ensures r == d ==> (n + r) / d == n / d + 1 && (n + r) % d == 0
  {
    var k := n / d;
    assert n == d * k;
    if r == d {
      assert n + r == d * (k + 1);
      Quotient(n + r, d, k + 1);
    } else {
      Quotient(n + r, d, k);
    }
  }

  lemma Quotient(n: nat, d: int, k: nat)
    requires 0 < d && d * k <= n < d * k + d
    ensures n / d == k && n % d == n - d * k
  {
    assert d * (n / d - k) == n - d * k - n % d;
    Scaled(d, n / d - k);
  }

  lemma Scaled(d: int, x: int)
    requires 0 < d
    ensures (1 <= x ==> d <= d * x) && (x <= -1 ==> d * x <= -d)
  {
  }
}
