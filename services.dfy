/**
 * Browser: the discovery state machine. Public operations only issue
 * requests to the discovery primitive; the primitive's callbacks, each run to
 * completion before the next, change the state.
 */
module Services {
  import opened Wrappers
  import opened Records
  import Removal

  /** The service type a Browser searches for unless told otherwise. */
  const DefaultServiceType: string := "_wifilamp._tcp."
  /** The domain every search runs in. */
  const LocalDomain: string := "local."
  /** The timeout, in seconds, of every resolve request. */
  const ResolveTimeout: int := 10

  /** The calls the browser makes into the discovery primitive. */
  datatype Request =
    | SearchForServices(serviceType: string, domain: string)  // browser.searchForServices(ofType:inDomain:)
    | StopBrowsing                                            // browser.stop()
    | StopService(service: Handle)                            // service.stop()
    | Resolve(service: Handle, timeout: int)                  // service.resolve(withTimeout:)

  /** The calls the browser makes on its delegate. */
  datatype Notification =
    | StartedSearching
    | FoundRecord(record: BrowserRecord)
    | RemovedRecord(record: BrowserRecord)

  /**
   * The resolved list an observer rebuilds from a run of notifications:
   * "started" empties it, "found" appends, "removed" takes out the first
   * equal record.
   */
  function Replay(ns: seq<Notification>): (rs: seq<BrowserRecord>)
    decreases |ns|
  {
    if ns == [] then []
    else
      var rs := Replay(ns[..|ns| - 1]);
      match ns[|ns| - 1]
      case StartedSearching => []
      case FoundRecord(r) => rs + [r]
      case RemovedRecord(r) => Removal.RemoveFirst(rs, r).1
  }

  /** One more notification changes the replayed list as that notification says. */
  lemma {:induction false} ReplaySnoc(ns: seq<Notification>, n: Notification)
    ensures Replay(ns + [n]) == match n
      case StartedSearching => []
      case FoundRecord(r) => Replay(ns) + [r]
      case RemovedRecord(r) => Removal.RemoveFirst(Replay(ns), r).1
  {
  }

  /** The "found" notifications for a run of records, in their order. */
  function Founds(rs: seq<BrowserRecord>): (ns: seq<Notification>)
    ensures |ns| == |rs|
    ensures forall i :: 0 <= i < |rs| ==> ns[i] == FoundRecord(rs[i])
  {
    if rs == [] then [] else Founds(rs[..|rs| - 1]) + [FoundRecord(rs[|rs| - 1])]
  }

  /**
   * Whatever came before, an observer told "started" and then only "found"
   * holds exactly the records found since, in the order they were found.
   */
  lemma {:induction false} ReplayAfterStart(ns: seq<Notification>, rs: seq<BrowserRecord>)
    ensures Replay(ns + [StartedSearching] + Founds(rs)) == rs
    decreases |rs|
  {
    if rs == [] {
      assert ns + [StartedSearching] + Founds(rs) == ns + [StartedSearching];
      ReplaySnoc(ns, StartedSearching);
    } else {
      var init, last := rs[..|rs| - 1], rs[|rs| - 1];
      ReplayAfterStart(ns, init);
      assert ns + [StartedSearching] + Founds(rs) == (ns + [StartedSearching] + Founds(init)) + [FoundRecord(last)];
      ReplaySnoc(ns + [StartedSearching] + Founds(init), FoundRecord(last));
      assert init + [last] == rs;
    }
  }

  /** The test `$0.service == service` that did-remove searches the resolved list with. */
  function MatchesService(service: Handle): (p: BrowserRecord -> bool) {
    (r: BrowserRecord) => r.service == service
  }

  /**
   * Removing the first record of a service from a replayed list is what an
   * observer does on hearing that record was removed, and keeps every
   * remaining record well formed.
   */
  lemma ReplayRemoved(ns: seq<Notification>, mark: nat, service: Handle, i: nat)
    requires mark <= |ns|
    requires forall r :: r in Replay(ns[mark..]) ==> WellFormed(r)
    requires Removal.FirstIndexWhere(Replay(ns[mark..]), MatchesService(service)) == Some(i)
    ensures var rs := Replay(ns[mark..]);
      && i < |rs|
      && Replay((ns + [RemovedRecord(rs[i])])[mark..]) == rs[..i] + rs[i + 1..]
      && forall r :: r in rs[..i] + rs[i + 1..] ==> WellFormed(r)
  {
    var rs := Replay(ns[mark..]);
    forall k | 0 <= k < i ensures !Removal.Equals(rs[i])(rs[k]) {
      assert !MatchesService(service)(rs[k]);
    }
    Removal.RemoveFirstWhereAt(rs, Removal.Equals(rs[i]), i);
    assert (ns + [RemovedRecord(rs[i])])[mark..] == ns[mark..] + [RemovedRecord(rs[i])];
    ReplaySnoc(ns[mark..], RemovedRecord(rs[i]));
    forall r | r in rs[..i] + rs[i + 1..] ensures WellFormed(r) {
      assert r in rs;
    }
  }

  /**
   * Appending a well-formed record is what an observer does on being told it
   * was found, whatever part of the log it replays from.
   */
  lemma ReplayFound(ns: seq<Notification>, mark: nat, record: BrowserRecord)
    requires mark <= |ns|
    requires WellFormed(record) && forall r :: r in Replay(ns[mark..]) ==> WellFormed(r)
    ensures Replay((ns + [FoundRecord(record)])[mark..]) == Replay(ns[mark..]) + [record]
    ensures forall r :: r in Replay(ns[mark..]) + [record] ==> WellFormed(r)
  {
    assert (ns + [FoundRecord(record)])[mark..] == ns[mark..] + [FoundRecord(record)];
    ReplaySnoc(ns[mark..], FoundRecord(record));
  }

  class Browser {
    const serviceType: string
    var servicesToResolve: seq<Handle>
    var resolvedServices: seq<BrowserRecord>
    var shouldRestartSearch: bool
    var searching: bool

    /** Every call made into the discovery primitive, oldest first. */
    ghost var requests: seq<Request>
    /** Every call made on the delegate, oldest first. */
    ghost var notifications: seq<Notification>
    /** Where the notifications that the resolved list reflects begin: the last silent reset. */
    ghost var resetMark: nat

    /**
     * The resolved list is exactly what the notifications since the last
     * silent reset describe, and every record in it is well formed.
     */
    ghost predicate Valid()
      reads this
    {
      && resetMark <= |notifications|
      && resolvedServices == Replay(notifications[resetMark..])
      && forall r :: r in resolvedServices ==> WellFormed(r)
    }

    /**
     * `init(serviceType:)`: idle, with both lists empty and nothing requested
     * yet; the service type is "_wifilamp._tcp." unless one is given.
     */
    constructor (serviceType: string := DefaultServiceType)
      ensures Valid()
      ensures this.serviceType == serviceType
      ensures servicesToResolve == [] && resolvedServices == []
      ensures !searching && !shouldRestartSearch
      ensures requests == [] && notifications == []
    {
      this.serviceType := serviceType;
      servicesToResolve, resolvedServices := [], [];
      shouldRestartSearch, searching := false, false;
      requests, notifications, resetMark := [], [], 0;
    }

    /** `records`: the resolved list, in the order the records were found. */
    function Records(): (rs: seq<BrowserRecord>)
      reads this
    {
      resolvedServices
    }

    /** `startSearch()`: asks for one search in "local." unless already searching. */
    method StartSearch()
      modifies this`requests
      ensures requests == old(requests) +
        if old(searching) then [] else [SearchForServices(serviceType, LocalDomain)]
    {
      if !searching {
        requests := requests + [SearchForServices(serviceType, LocalDomain)];
      }
    }

    /** `stopSearch()`: asks the primitive to stop; the state changes only when it reports back. */
    method StopSearch()
      modifies this`requests
      ensures requests == old(requests) + [StopBrowsing]
    {
      requests := requests + [StopBrowsing];
    }

    /**
     * `refresh()`: while searching, asks for a stop and remembers to search
     * again once it is done; while idle, starts a search.
     */
    method Refresh()
      modifies this`requests, this`shouldRestartSearch
      ensures searching ==> shouldRestartSearch && requests == old(requests) + [StopBrowsing]
      ensures !searching ==>
        && shouldRestartSearch == old(shouldRestartSearch)
        && requests == old(requests) + [SearchForServices(serviceType, LocalDomain)]
    {
      if searching {
        shouldRestartSearch := true;
        StopSearch();
      } else {
        StartSearch();
      }
    }

    /** `clearResults()`: empties both lists. */
    method ClearResults()
      modifies this`servicesToResolve, this`resolvedServices
      ensures servicesToResolve == [] && resolvedServices == []
    {
      servicesToResolve := [];
      resolvedServices := [];
    }

    /** Did-not-search: the search could not start; back to idle with nothing found, silently. */
    method DidNotSearch(errorDict: map<string, int>)
      requires Valid()
      modifies this`servicesToResolve, this`resolvedServices, this`searching, this`resetMark
      ensures Valid()
      ensures servicesToResolve == [] && resolvedServices == [] && !searching
      ensures resetMark == |notifications|
    {
      ClearResults();
      searching := false;
      resetMark := |notifications|;
    }

    /** Will-search: the single reset point; empties both lists, searching, one "started" notification. */
    method WillSearch()
      requires Valid()
      modifies this`servicesToResolve, this`resolvedServices, this`searching, this`notifications
      ensures Valid()
      ensures servicesToResolve == [] && resolvedServices == [] && searching
      ensures notifications == old(notifications) + [StartedSearching]
    {
      ClearResults();
      searching := true;
      ReplaySnoc(notifications[resetMark..], StartedSearching);
      assert (notifications + [StartedSearching])[resetMark..] == notifications[resetMark..] + [StartedSearching];
      notifications := notifications + [StartedSearching];
    }

    /**
     * Did-stop: back to idle with both lists empty, silently; a pending
     * restart is consumed and becomes exactly one new search request.
     */
    method DidStopSearch()
      requires Valid()
      modifies this`servicesToResolve, this`resolvedServices, this`searching, this`resetMark
      modifies this`shouldRestartSearch, this`requests
      ensures Valid()
      ensures servicesToResolve == [] && resolvedServices == [] && !searching && !shouldRestartSearch
      ensures resetMark == |notifications|
      ensures requests == old(requests) +
        if old(shouldRestartSearch) then [SearchForServices(serviceType, LocalDomain)] else []
    {
      ClearResults();
      searching := false;
      resetMark := |notifications|;
      if shouldRestartSearch {
        shouldRestartSearch := false;
        StartSearch();
      }
    }

    /** Did-find: the service joins the end of the pending list and is resolved with a 10 s timeout. */
    method DidFind(service: Handle, moreComing: bool)
      modifies this`servicesToResolve, this`requests
      ensures servicesToResolve == old(servicesToResolve) + [service]
      ensures requests == old(requests) + [StopService(service), Resolve(service, ResolveTimeout)]
    {
      requests := requests + [StopService(service)];
      requests := requests + [Resolve(service, ResolveTimeout)];
      servicesToResolve := servicesToResolve + [service];
    }

    /**
     * Did-remove: the service leaves the pending list; the first record of
     * that service, if there is one, leaves the resolved list and is
     * reported removed, and otherwise nothing is reported.
     */
    method DidRemove(service: Handle, moreComing: bool)
      requires Valid()
      modifies this`servicesToResolve, this`resolvedServices, this`notifications
      ensures Valid()
      ensures servicesToResolve == Removal.RemoveFirst(old(servicesToResolve), service).1
      ensures match Removal.FirstIndexWhere(old(resolvedServices), MatchesService(service))
        case None =>
          resolvedServices == old(resolvedServices) && notifications == old(notifications)
        case Some(i) =>
          && resolvedServices == old(resolvedServices)[..i] + old(resolvedServices)[i + 1..]
          && notifications == old(notifications) + [RemovedRecord(old(resolvedServices)[i])]
    {
      servicesToResolve := Removal.RemoveFirst(servicesToResolve, service).1;
      ghost var found := Removal.FirstIndexWhere(resolvedServices, MatchesService(service));
      var removed := Removal.RemoveFirstWhere(resolvedServices, MatchesService(service));
      resolvedServices := removed.1;
      if removed.0.Some? {
        var record := removed.0.value;
        ReplayRemoved(notifications, resetMark, service, found.value);
        notifications := notifications + [RemovedRecord(record)];
      }
    }

    /**
     * Did-resolve: the sender leaves the pending list; when a record can be
     * built from what was resolved it is appended and reported found;
     * either way the sender is told to stop.
     */
    method DidResolveAddress(sender: Handle, hostName: Option<string>, txt: Option<TxtDictionary>)
      requires Valid()
      modifies this`servicesToResolve, this`resolvedServices, this`notifications, this`requests
      ensures Valid()
      ensures servicesToResolve == Removal.RemoveFirst(old(servicesToResolve), sender).1
      ensures match From(sender, txt, hostName)
        case None =>
          resolvedServices == old(resolvedServices) && notifications == old(notifications)
        case Some(record) =>
          && resolvedServices == old(resolvedServices) + [record]
          && notifications == old(notifications) + [FoundRecord(record)]
      ensures requests == old(requests) + [StopService(sender)]
    {
      servicesToResolve := Removal.RemoveFirst(servicesToResolve, sender).1;
      var record := From(sender, txt, hostName);
      if record.Some? {
        ReplayFound(notifications, resetMark, record.value);
        resolvedServices := resolvedServices + [record.value];
        notifications := notifications + [FoundRecord(record.value)];
      }
      requests := requests + [StopService(sender)];
    }

    /** Did-not-resolve: the sender only leaves the pending list. */
    method DidNotResolve(sender: Handle, errorDict: map<string, int>)
      modifies this`servicesToResolve
      ensures servicesToResolve == Removal.RemoveFirst(old(servicesToResolve), sender).1
    {
      servicesToResolve := Removal.RemoveFirst(servicesToResolve, sender).1;
    }
  }
}
