/**
 * Event sequences a delegate can rely on, proved from the Browser's
 * contracts alone.
 */
module Scenarios {
  import opened Wrappers
  import opened Records
  import opened Services
  import Utf8
  import Removal

  /**
   * A browser made without a service type looks for lamps: its first start
   * asks for "_wifilamp._tcp." services in "local.".
   */
  method DefaultSearch() returns (b: Browser)
    ensures fresh(b) && b.Valid()
    ensures b.serviceType == "_wifilamp._tcp."
    ensures b.requests == [SearchForServices("_wifilamp._tcp.", "local.")]
  {
    b := new Browser();
    b.StartSearch();
  }

  /**
   * Refreshing while searching: a stop request, then, once the primitive
   * reports the stop and the new search, one new search request and exactly
   * one "started" notification, with both lists empty.
   */
  method RefreshWhileSearching(b: Browser)
    requires b.Valid() && b.searching
    modifies b
    ensures b.Valid()
    ensures b.requests == old(b.requests) + [StopBrowsing, SearchForServices(b.serviceType, LocalDomain)]
    ensures b.notifications == old(b.notifications) + [StartedSearching]
    ensures b.searching && !b.shouldRestartSearch
    ensures b.servicesToResolve == [] && b.resolvedServices == []
  {
    b.Refresh();
    b.DidStopSearch();
    b.WillSearch();
  }

  /** Starting a search that has already started asks for nothing more. */
  method StartSearchTwice(b: Browser)
    requires b.Valid() && !b.searching
    modifies b
    ensures b.Valid() && b.searching
    ensures b.requests == old(b.requests) + [SearchForServices(b.serviceType, LocalDomain)]
    ensures b.notifications == old(b.notifications) + [StartedSearching]
  {
    b.StartSearch();
    b.WillSearch();
    b.StartSearch();
  }

  /**
   * A search starts and then services resolve one after another, each with
   * complete data: the resolved list is exactly the records they build, in
   * order, and it is also the list a delegate rebuilds from every
   * notification it has ever received.
   */
  method ResolvedAfterStart(b: Browser, resolved: seq<(Handle, TxtDictionary, string)>, records: seq<BrowserRecord>)
    requires b.Valid() && Builds(resolved, records)
    modifies b
    ensures b.Valid() && b.searching
    ensures b.resolvedServices == records
    ensures b.notifications == old(b.notifications) + [StartedSearching] + Founds(records)
    ensures Replay(b.notifications) == b.resolvedServices
  {
    b.WillSearch();
    ResolveAll(b, resolved, records);
    ReplayAfterStart(old(b.notifications), records);
  }

  /** The record built from one resolution: a service, its TXT data and its host name. */
  function RecordOf(resolution: (Handle, TxtDictionary, string)): (r: Option<BrowserRecord>) {
    From(resolution.0, Some(resolution.1), Some(resolution.2))
  }

  /** Each resolution, in order, builds the record at the same place. */
  predicate Builds(resolved: seq<(Handle, TxtDictionary, string)>, records: seq<BrowserRecord>) {
    && |resolved| == |records|
    && (resolved != [] ==> RecordOf(resolved[0]) == Some(records[0]) && Builds(resolved[1..], records[1..]))
  }

  /** Builds says, position by position, that each resolution builds its record. */
  lemma {:induction false} BuildsIndexed(resolved: seq<(Handle, TxtDictionary, string)>, records: seq<BrowserRecord>)
    ensures Builds(resolved, records) <==>
      |resolved| == |records| && forall i :: 0 <= i < |resolved| ==> RecordOf(resolved[i]) == Some(records[i])
    decreases |resolved|
  {
    if resolved != [] && |resolved| == |records| {
      BuildsIndexed(resolved[1..], records[1..]);
      if forall i :: 0 <= i < |resolved| ==> RecordOf(resolved[i]) == Some(records[i]) {
        forall i | 0 <= i < |resolved| - 1 ensures RecordOf(resolved[1..][i]) == Some(records[1..][i]) {
          assert resolved[1..][i] == resolved[i + 1] && records[1..][i] == records[i + 1];
        }
      }
      if Builds(resolved, records) {
        forall i | 0 <= i < |resolved| ensures RecordOf(resolved[i]) == Some(records[i]) {
          if i > 0 {
            assert resolved[1..][i - 1] == resolved[i] && records[1..][i - 1] == records[i];
          }
        }
      }
    }
  }

  /**
   * Resolutions delivered one after another, each building a record: each
   * record is appended and reported found, in order.
   */
  method ResolveAll(b: Browser, resolved: seq<(Handle, TxtDictionary, string)>, records: seq<BrowserRecord>)
    requires b.Valid() && Builds(resolved, records)
    modifies b
    ensures b.Valid() && b.searching == old(b.searching)
    ensures b.resolvedServices == old(b.resolvedServices) + records
    ensures b.notifications == old(b.notifications) + Founds(records)
    decreases |resolved|
  {
    if resolved != [] {
      ghost var rs, ns := b.resolvedServices, b.notifications;
      ResolveOne(b, resolved[0], records[0]);
      ResolveAll(b, resolved[1..], records[1..]);
      FoundsCons(records[0], records[1..]);
      Concat3(rs, [records[0]], records[1..], records);
      Concat3(ns, [FoundRecord(records[0])], Founds(records[1..]), Founds(records));
    }
  }

  /** One resolution that builds a record: the record is appended and reported found. */
  method ResolveOne(b: Browser, resolution: (Handle, TxtDictionary, string), record: BrowserRecord)
    requires b.Valid() && RecordOf(resolution) == Some(record)
    modifies b
    ensures b.Valid() && b.searching == old(b.searching)
    ensures b.resolvedServices == old(b.resolvedServices) + [record]
    ensures b.notifications == old(b.notifications) + [FoundRecord(record)]
  {
    var (service, txt, hostName) := resolution;
    b.DidResolveAddress(service, Some(hostName), Some(txt));
  }

  /** Appending two pieces one after the other appends their concatenation. */
  lemma Concat3<T>(a: seq<T>, b: seq<T>, c: seq<T>, bc: seq<T>)
    requires bc == b + c
    ensures a + b + c == a + bc
  {
  }

  /** A record in front adds its "found" in front. */
  lemma {:induction false} FoundsCons(r: BrowserRecord, rs: seq<BrowserRecord>)
    ensures Founds([r] + rs) == [FoundRecord(r)] + Founds(rs)
    decreases |rs|
  {
    if rs != [] {
      var init := rs[..|rs| - 1];
      FoundsCons(r, init);
      assert ([r] + rs)[..|rs|] == [r] + init;
    }
  }

  /**
   * A service found and then resolved with complete data yields one record
   * at the end of the list and one "found" notification, and leaves nothing
   * pending.
   */
  method FoundThenResolved(b: Browser, service: Handle, txt: TxtDictionary, hostName: string, chipId: string)
      returns (record: BrowserRecord)
    requires b.Valid() && service !in b.servicesToResolve
    requires ChipIdKey in txt && txt[ChipIdKey] == Utf8.Encode(chipId)
    modifies b
    ensures b.Valid()
    ensures record == BrowserRecord(DisplayName(service.name), hostName, Scheme + hostName, chipId, service)
    ensures b.servicesToResolve == old(b.servicesToResolve)
    ensures b.resolvedServices == old(b.resolvedServices) + [record]
    ensures b.notifications == old(b.notifications) + [FoundRecord(record)]
    ensures b.requests == old(b.requests) +
      [StopService(service), Resolve(service, ResolveTimeout), StopService(service)]
  {
    b.DidFind(service, false);
    Removal.RemoveFirstWhereAt(b.servicesToResolve, Removal.Equals(service), |b.servicesToResolve| - 1);
    FromSucceeds(service, txt, hostName, chipId);
    record := BrowserRecord(DisplayName(service.name), hostName, Scheme + hostName, chipId, service);
    b.DidResolveAddress(service, Some(hostName), Some(txt));
  }

  /** A service found and then not resolved leaves no trace but its requests. */
  method FoundThenNotResolved(b: Browser, service: Handle)
    requires b.Valid() && service !in b.servicesToResolve
    modifies b
    ensures b.Valid()
    ensures b.servicesToResolve == old(b.servicesToResolve)
    ensures b.resolvedServices == old(b.resolvedServices)
    ensures b.notifications == old(b.notifications)
    ensures b.requests == old(b.requests) + [StopService(service), Resolve(service, ResolveTimeout)]
  {
    b.DidFind(service, false);
    Removal.RemoveFirstWhereAt(b.servicesToResolve, Removal.Equals(service), |b.servicesToResolve| - 1);
    b.DidNotResolve(service, map[]);
  }

  /**
   * A record that is resolved and then withdrawn is reported removed exactly
   * once, and the resolved list is what it was before.
   */
  method ResolvedThenRemoved(b: Browser, service: Handle, txt: TxtDictionary, hostName: string, chipId: string)
      returns (record: BrowserRecord)
    requires b.Valid() && service !in b.servicesToResolve
    requires forall r :: r in b.resolvedServices ==> r.service != service
    requires ChipIdKey in txt && txt[ChipIdKey] == Utf8.Encode(chipId)
    modifies b
    ensures b.Valid()
    ensures b.servicesToResolve == old(b.servicesToResolve)
    ensures b.resolvedServices == old(b.resolvedServices)
    ensures record.service == service
    ensures b.notifications == old(b.notifications) + [FoundRecord(record), RemovedRecord(record)]
  {
    record := FoundThenResolved(b, service, txt, hostName, chipId);
    RemovedLast(b, record, old(b.resolvedServices));
  }

  /**
   * Withdrawing the service of the last record, when no earlier record has
   * that service, takes exactly that record off and reports it removed.
   */
  method RemovedLast(b: Browser, record: BrowserRecord, ghost rs: seq<BrowserRecord>)
    requires b.Valid() && record.service !in b.servicesToResolve
    requires b.resolvedServices == rs + [record]
    requires forall r :: r in rs ==> r.service != record.service
    modifies b
    ensures b.Valid()
    ensures b.servicesToResolve == old(b.servicesToResolve)
    ensures b.resolvedServices == rs
    ensures b.notifications == old(b.notifications) + [RemovedRecord(record)]
  {
    LastMatch(rs, record, record.service);
    b.DidRemove(record.service, false);
    assert (rs + [record])[..|rs|] == rs;
  }

  /** A record appended after records of other services is the first of its service. */
  lemma LastMatch(rs: seq<BrowserRecord>, record: BrowserRecord, service: Handle)
    requires record.service == service
    requires forall r :: r in rs ==> r.service != service
    ensures Removal.FirstIndexWhere(rs + [record], MatchesService(service)) == Some(|rs|)
  {
    var s := rs + [record];
    forall k | 0 <= k < |rs| ensures !MatchesService(service)(s[k]) {
      assert s[k] in rs;
    }
    Removal.FirstIndexWhereAt(s, MatchesService(service), |rs|);
  }

  /**
   * Nothing stops a service from being resolved twice: its record is then
   * listed, and reported found, twice.
   */
  method ResolvedTwice(b: Browser, service: Handle, txt: TxtDictionary, hostName: string, chipId: string)
      returns (record: BrowserRecord)
    requires b.Valid()
    requires ChipIdKey in txt && txt[ChipIdKey] == Utf8.Encode(chipId)
    modifies b
    ensures b.Valid()
    ensures record.service == service
    ensures b.resolvedServices == old(b.resolvedServices) + [record, record]
    ensures b.notifications == old(b.notifications) + [FoundRecord(record), FoundRecord(record)]
  {
    FromSucceeds(service, txt, hostName, chipId);
    record := BrowserRecord(DisplayName(service.name), hostName, Scheme + hostName, chipId, service);
    b.DidResolveAddress(service, Some(hostName), Some(txt));
    b.DidResolveAddress(service, Some(hostName), Some(txt));
  }
}
