/**
 The registry of Janus servers: static ones from the configuration and dynamic ones that a
 refresh finds behind the headless service.  A refresh reconciles the table of names with the
 pods that answered; `serverIdLookup` maps a Janus session id to its server's name.
 */
module Registry {
  import opened Bytes

  const MAX_ENDPOINTS: nat := 64

  /** `enabled`: the server's thread is running, and holds the Janus session `session` (0: none);
      `serverId` is the copy of it that callers dial with. */
  datatype Server = Server(
    dynamic: bool, enabled: bool, ip: bytes, url: bytes,
    session: nat, serverId: nat, calls: nat, failures: nat, verified: bool)

  /** An address of the service, and the name of the pod that answered there, if any did. */
  datatype Probe = Probe(ip: bytes, podName: Option<bytes>)

  datatype Endpoint = Endpoint(name: bytes, ip: bytes, url: bytes)

  predicate IsPodByte(c: byte) {
    (97 <= c <= 122) || IsDigit(c) || c == MINUS
  }

  /** `serversPodNameValid`: a DNS label. */
  predicate ValidPodName(name: bytes) {
    && 0 < |name| <= 63
    && (forall i :: 0 <= i < |name| ==> IsPodByte(name[i]))
    && name[0] != MINUS && name[|name| - 1] != MINUS
  }

  /** The scan of `serversPodNameValid`. */
  method PodNameValid(name: bytes) returns (valid: bool)
    ensures valid <==> ValidPodName(name)
    ensures valid <==>
              && 1 <= |name| <= 63
              && (forall i :: 0 <= i < |name| ==>
                    'a' as int <= name[i] <= 'z' as int || '0' as int <= name[i] <= '9' as int || name[i] == '-' as int)
              && name[0] != '-' as int && name[|name| - 1] != '-' as int
  {
    if name == [] || |name| > 63 {
      return false;
    }
    var p := 0;
    while p < |name|
      invariant 0 <= p <= |name|
      invariant forall i :: 0 <= i < p ==> IsPodByte(name[i])
    {
      if !(('a' as int <= name[p] <= 'z' as int) || ('0' as int <= name[p] <= '9' as int) || name[p] == '-' as int) {
        return false;
      }
      p := p + 1;
    }
    if name[0] == '-' as int || name[|name| - 1] == '-' as int {
      return false;
    }
    valid := true;
  }

  // ---------------------------------------------------------------- probing

  /** The probe's answer counts if it carries a valid name. */
  predicate Answers(p: Probe, name: bytes) {
    p.podName == Some(name) && ValidPodName(name)
  }

  predicate Lists(es: seq<Endpoint>, name: bytes) {
    exists k :: 0 <= k < |es| && es[k].name == name
  }

  /** Index of the first probe that answered with the name. */
  predicate FirstAnswer(probes: seq<Probe>, i: nat, name: bytes) {
    i < |probes| && Answers(probes[i], name) && forall j :: 0 <= j < i ==> !Answers(probes[j], name)
  }

  predicate DistinctNames(es: seq<Endpoint>) {
    forall i, j :: 0 <= i < j < |es| ==> es[i].name != es[j].name
  }

  /** Endpoint `e` is what the first answer under its name reported. */
  ghost predicate Reported(probes: seq<Probe>, e: Endpoint, urlOf: bytes -> bytes) {
    exists i: nat :: FirstAnswer(probes, i, e.name) && e.ip == probes[i].ip && e.url == urlOf(e.ip)
  }

  /** The endpoints are the first answers under up to 64 names; below 64, under all of them. */
  ghost predicate Collected(probes: seq<Probe>, urlOf: bytes -> bytes, es: seq<Endpoint>) {
    && |es| <= MAX_ENDPOINTS && DistinctNames(es)
    && (forall k :: 0 <= k < |es| ==> Reported(probes, es[k], urlOf))
    && (|es| < MAX_ENDPOINTS ==> forall i, n :: 0 <= i < |probes| && Answers(probes[i], n) ==> Lists(es, n))
  }

  /** The collecting loop of `serversRegistryRefresh`: the first answer of each name, up to 64. */
  method CollectEndpoints(probes: seq<Probe>, urlOf: bytes -> bytes) returns (endpoints: seq<Endpoint>)
    ensures Collected(probes, urlOf, endpoints)
  {
    endpoints := [];
    var r := 0;
    while r < |probes| && |endpoints| < MAX_ENDPOINTS
      invariant 0 <= r <= |probes| && |endpoints| <= MAX_ENDPOINTS && DistinctNames(endpoints)
      invariant forall k :: 0 <= k < |endpoints| ==> Reported(probes, endpoints[k], urlOf)
      invariant forall i, n :: 0 <= i < r && Answers(probes[i], n) ==> Lists(endpoints, n)
    {
      var probe := probes[r];
      var valid := false;
      if probe.podName.Some? {
        valid := PodNameValid(probe.podName.value);
      }
      if valid {
        var name := probe.podName.value;
        var j := 0;
        while j < |endpoints| && endpoints[j].name != name
          invariant 0 <= j <= |endpoints|
          invariant forall k :: 0 <= k < j ==> endpoints[k].name != name
        {
          j := j + 1;
        }
        if j == |endpoints| {
          assert !Lists(endpoints, name);
          assert FirstAnswer(probes, r, name);
          ghost var before := endpoints;
          endpoints := endpoints + [Endpoint(name, probe.ip, urlOf(probe.ip))];
          StillListed(before, endpoints);
          assert endpoints[|before|].name == name;
        }
      }
      r := r + 1;
    }
  }

  lemma StillListed(es: seq<Endpoint>, es': seq<Endpoint>)
    requires es <= es'
    ensures forall n :: Lists(es, n) ==> Lists(es', n)
  {
    forall n | Lists(es, n) ensures Lists(es', n) {
      var k :| 0 <= k < |es| && es[k].name == n;
      assert es'[k].name == n;
    }
  }

  // ---------------------------------------------------------------- reconciling

  /** `serversCreateRegistryServer` */
  function NewServer(e: Endpoint): (s: Server)
  {
    Server(true, true, e.ip, e.url, 0, 0, 0, 0, false)
  }

  /** `serversUpdateRegistryServer`, and the restart of a stopped thread. */
  function Refreshed(s: Server, e: Endpoint): (s': Server)
  {
    s.(enabled := true,
       session := if s.enabled then s.session else 0,
       ip := if e.ip == [] then s.ip else e.ip,
       url := if e.url == [] then s.url else e.url,
       verified := s.verified && (e.url == [] || e.url == s.url),
       failures := 0)
  }

  /** Dynamic servers without a call whose pod was not seen. */
  ghost predicate IsStale(servers: map<bytes, Server>, es: seq<Endpoint>, name: bytes) {
    name in servers && servers[name].dynamic && servers[name].calls == 0 && !Lists(es, name)
  }

  ghost function Stale(servers: map<bytes, Server>, es: seq<Endpoint>): (names: set<bytes>)
  {
    set n | n in servers && IsStale(servers, es, n)
  }

  /** The table took the endpoint in. */
  predicate Took(before: map<bytes, Server>, e: Endpoint, after: map<bytes, Server>) {
    && e.name in after
    && (e.name !in before ==> after[e.name] == NewServer(e))
    && (e.name in before && before[e.name].dynamic ==> after[e.name] == Refreshed(before[e.name], e))
    && (e.name in before && !before[e.name].dynamic ==> after[e.name] == before[e.name])
  }

  /** The table is up to date with the endpoint, field by field: a name that was unknown is a server of
      the endpoint's address, without session, calls or failures and not verified; a dynamic server has
      the address and url the endpoint gives, no failures, its calls and published id as before, its
      session if its thread was running, and stays verified exactly if its url is the same. */
  predicate UpToDate(before: map<bytes, Server>, e: Endpoint, after: map<bytes, Server>) {
    && e.name in after && after[e.name].enabled == (e.name !in before || before[e.name].dynamic || before[e.name].enabled)
    && (e.name !in before ==>
          var s := after[e.name];
          && s.dynamic && s.ip == e.ip && s.url == e.url
          && s.session == 0 && s.serverId == 0 && s.calls == 0 && s.failures == 0 && !s.verified)
    && (e.name in before && before[e.name].dynamic ==>
          var s, s' := before[e.name], after[e.name];
          && s'.dynamic && s'.failures == 0 && s'.calls == s.calls && s'.serverId == s.serverId
          && s'.ip == (if e.ip != [] then e.ip else s.ip)
          && s'.url == (if e.url != [] then e.url else s.url)
          && (s'.verified <==> s.verified && s'.url == s.url)
          && s'.session == (if s.enabled then s.session else 0))
    && (e.name in before && !before[e.name].dynamic ==> after[e.name] == before[e.name])
  }

  /** Unknown names become dynamic servers, known dynamic ones are brought up to date, and static
      ones and those not seen are left alone. */
  ghost predicate Applied(before: map<bytes, Server>, es: seq<Endpoint>, after: map<bytes, Server>) {
    && (forall n :: n in after <==> n in before || Lists(es, n))
    && (forall n :: n in before && (!before[n].dynamic || !Lists(es, n)) ==> after[n] == before[n])
    && (forall k :: 0 <= k < |es| ==> Took(before, es[k], after))
  }

  function WithEndpoint(servers: map<bytes, Server>, e: Endpoint): (servers': map<bytes, Server>)
  {
    if e.name !in servers then servers[e.name := NewServer(e)]
    else if servers[e.name].dynamic then servers[e.name := Refreshed(servers[e.name], e)]
    else servers
  }

  lemma AppliedNext(before: map<bytes, Server>, es: seq<Endpoint>, i: nat, mid: map<bytes, Server>)
    requires i < |es| && DistinctNames(es) && Applied(before, es[..i], mid)
    ensures Applied(before, es[..i + 1], WithEndpoint(mid, es[i]))
  {
    hide Lists, NewServer, Refreshed;
    ListedNext(es, i);
    NotListedYet(es, i);
    var after, name := WithEndpoint(mid, es[i]), es[i].name;
    assert forall n :: n in mid && n != name ==> n in after && after[n] == mid[n];
    assert name in mid <==> name in before;
    assert name in before ==> mid[name] == before[name];
    var seen := es[..i + 1];
    forall k | 0 <= k < |seen| ensures Took(before, seen[k], after) {
      if k < i {
        assert Took(before, es[..i][k], mid);
        assert es[k].name != name;
      }
    }
  }

  /** The lookup by session is keyed by the sessions the running threads hold, and no server's
      `serverId` is the session of another one. */
  ghost predicate Keyed(byName: map<bytes, Server>, byId: map<nat, bytes>) {
    && (forall id :: id in byId ==>
          id != 0 && byId[id] in byName && byName[byId[id]].enabled && byName[byId[id]].session == id)
    && (forall n :: n in byName && byName[n].serverId in byId ==> byId[byName[n].serverId] == n)
    && (forall n :: n in byName && byName[n].enabled && byName[n].session in byId ==> byId[byName[n].session] == n)
  }

  function Without(byId: map<nat, bytes>, gone: set<bytes>): (rest: map<nat, bytes>)
    ensures forall id :: id in rest <==> id in byId && byId[id] !in gone
    ensures forall id :: id in rest ==> rest[id] == byId[id]
  {
    map id | id in byId && byId[id] !in gone :: byId[id]
  }

  /** What one refresh does to the servers when these endpoints answered. */
  ghost predicate Reconciled(before: map<bytes, Server>, es: seq<Endpoint>, after: map<bytes, Server>, evicted: set<bytes>) {
    && (exists mid :: Applied(before, es, mid) && after == mid - evicted)
    && evicted <= Stale(before, es)
    && |evicted| == Least(|Stale(before, es)|, MAX_ENDPOINTS)
  }

  function Least(a: nat, b: nat): (m: nat) {
    if a <= b then a else b
  }

  class ServerTable {
    var byName: map<bytes, Server>
    var byId: map<nat, bytes>

    constructor (servers: map<bytes, Server>)
      ensures byName == servers && byId == map[]
    {
      byName, byId := servers, map[];
    }

    /** The loop over the endpoints. */
    method ApplyEndpoints(es: seq<Endpoint>)
      requires DistinctNames(es)
      modifies this`byName
      ensures Applied(old(byName), es, byName)
      ensures forall k :: 0 <= k < |es| ==> UpToDate(old(byName), es[k], byName)
    {
      var i := 0;
      while i < |es|
        invariant 0 <= i <= |es|
        invariant Applied(old(byName), es[..i], byName)
      {
        var e := es[i];
        AppliedNext(old(byName), es, i, byName);
        if e.name !in byName {
          byName := byName[e.name := NewServer(e)];
        } else if byName[e.name].dynamic {
          byName := byName[e.name := Refreshed(byName[e.name], e)];
        }
        i := i + 1;
      }
      assert es[..|es|] == es;
    }

    /** The loop over the table, in whatever order it yields: at most 64 stale names. */
    method CollectStale(es: seq<Endpoint>) returns (list: set<bytes>)
      ensures list <= Stale(byName, es)
      ensures |list| == Least(|Stale(byName, es)|, MAX_ENDPOINTS)
    {
      hide IsStale;
      list := {};
      ghost var stale := Stale(byName, es);
      var rest := byName.Keys;
      ghost var met: set<bytes> := {};
      while rest != {}
        invariant rest <= byName.Keys && met + rest == byName.Keys
        invariant list <= stale * met && |list| <= MAX_ENDPOINTS
        invariant |list| < MAX_ENDPOINTS ==> list == stale * met
        decreases |rest|
      {
        var n :| n in rest;
        var seen := IsListed(es, n);
        MeetOne(stale, met, n);
        assert n in stale <==> byName[n].dynamic && !seen && byName[n].calls == 0 by { StaleIs(byName, es, n); }
        rest := rest - {n};
        met := met + {n};
        if byName[n].dynamic && !seen && byName[n].calls == 0 {
          if |list| < MAX_ENDPOINTS {
            list := list + {n};
          }
        }
      }
      assert stale * met == stale;
      SubsetSize(list, stale);
    }

    /** Setting `SFLAG_EVICTED` and stopping the thread: a running thread gives up its session on
        its way out, then the server leaves both tables (`serversDynamicRemoveFromLookup`). */
    method Evict(name: bytes)
      requires name in byName && byName[name].dynamic && Keyed(byName, byId)
      modifies this
      ensures byName == old(byName) - {name} && byId == Without(old(byId), {name})
      ensures Keyed(byName, byId)
    {
      hide Keyed;
      var server := byName[name];
      if server.enabled {
        byId := byId - {server.session};
      }
      if server.serverId != 0 {
        byId := byId - {server.serverId};
      }
      byName := byName - {name};
      EntriesOf(old(byName), old(byId), name);
      assert byId == Without(old(byId), {name});
      KeyedWithout(old(byName), old(byId), name);
    }

    method EvictAll(list: set<bytes>)
      requires list <= byName.Keys && Keyed(byName, byId)
      requires forall n :: n in list ==> byName[n].dynamic
      modifies this
      ensures byName == old(byName) - list && byId == Without(old(byId), list)
      ensures Keyed(byName, byId)
    {
      hide Keyed;
      var rest := list;
      ghost var gone: set<bytes> := {};
      while rest != {}
        invariant gone + rest == list && gone !! rest
        invariant byName == old(byName) - gone && byId == Without(old(byId), gone)
        invariant Keyed(byName, byId)
        decreases |rest|
      {
        var n :| n in rest;
        GoneOne(old(byName), old(byId), gone, n);
        Evict(n);
        rest, gone := rest - {n}, gone + {n};
      }
      assert gone == list;
    }

    /** `serversRegistryRefresh`.  `probes` is what the service's addresses answered, `None` when
        there is no usable service address or its lookup failed. */
    method Refresh(probes: Option<seq<Probe>>, urlOf: bytes -> bytes)
      returns (ok: bool, endpoints: seq<Endpoint>, evicted: set<bytes>)
      requires Keyed(byName, byId)
      modifies this
      ensures ok == probes.Some?
      ensures !ok ==> byName == old(byName) && byId == old(byId)
      ensures ok ==> Collected(probes.value, urlOf, endpoints)
      ensures ok ==> Reconciled(old(byName), endpoints, byName, evicted)
      ensures ok ==> byId == Without(old(byId), evicted)
      ensures Keyed(byName, byId)
    {
      hide Keyed, Applied, Stale;
      ok, endpoints, evicted := false, [], {};
      if probes.Some? {
        ok := true;
        endpoints := CollectEndpoints(probes.value, urlOf);
        ApplyEndpoints(endpoints);
        assert Keyed(byName, byId) by { AppliedKeepsKeyed(old(byName), endpoints, byName, byId); }
        AppliedKeepsStale(old(byName), endpoints, byName);
        evicted := CollectStale(endpoints);
        ghost var mid := byName;
        StaleAreDynamic(mid, endpoints);
        EvictAll(evicted);
        assert Applied(old(byName), endpoints, mid) && byName == mid - evicted;
      }
    }
  }

  /** The only entry that leads to a server is that of the session its thread holds, and neither this
      session nor the published one leads anywhere else. */
  lemma EntriesOf(byName: map<bytes, Server>, byId: map<nat, bytes>, name: bytes)
    requires name in byName && Keyed(byName, byId)
    ensures forall id :: id in byId && byId[id] != name ==>
              id != byName[name].serverId && (byName[name].enabled ==> id != byName[name].session)
    ensures forall id :: id in byId && byId[id] == name ==> byName[name].enabled && id == byName[name].session
  {
  }

  lemma KeyedWithout(byName: map<bytes, Server>, byId: map<nat, bytes>, name: bytes)
    requires Keyed(byName, byId)
    ensures Keyed(byName - {name}, Without(byId, {name}))
  {
  }

  lemma GoneOne(byName: map<bytes, Server>, byId: map<nat, bytes>, gone: set<bytes>, n: bytes)
    ensures byName - gone - {n} == byName - (gone + {n})
    ensures Without(Without(byId, gone), {n}) == Without(byId, gone + {n})
  {
  }

  lemma StaleAreDynamic(servers: map<bytes, Server>, es: seq<Endpoint>)
    ensures Stale(servers, es) <= servers.Keys
    ensures forall n :: n in Stale(servers, es) ==> servers[n].dynamic
  {
  }

  lemma MeetOne<T>(s: set<T>, met: set<T>, n: T)
    ensures s * (met + {n}) == s * met + if n in s then {n} else {}
  {
  }

  lemma StaleIs(servers: map<bytes, Server>, es: seq<Endpoint>, n: bytes)
    requires n in servers
    ensures n in Stale(servers, es) <==> servers[n].dynamic && !Lists(es, n) && servers[n].calls == 0
  {
  }

  method IsListed(es: seq<Endpoint>, n: bytes) returns (yes: bool)
    ensures yes <==> Lists(es, n)
  {
    var k := 0;
    while k < |es|
      invariant 0 <= k <= |es| && forall j :: 0 <= j < k ==> es[j].name != n
    {
      if es[k].name == n {
        return true;
      }
      k := k + 1;
    }
    yes := false;
  }

  lemma ListedNext(es: seq<Endpoint>, i: nat)
    requires i < |es|
    ensures forall n :: Lists(es[..i + 1], n) <==> Lists(es[..i], n) || n == es[i].name
  {
    forall n ensures Lists(es[..i + 1], n) <==> Lists(es[..i], n) || n == es[i].name {
      if Lists(es[..i], n) {
        var k :| 0 <= k < i && es[..i][k].name == n;
        assert es[..i + 1][k].name == n;
      }
      if n == es[i].name {
        assert es[..i + 1][i].name == n;
      }
      if Lists(es[..i + 1], n) {
        var k :| 0 <= k < i + 1 && es[..i + 1][k].name == n;
        assert k < i ==> es[..i][k].name == n;
      }
    }
  }

  lemma NotListedYet(es: seq<Endpoint>, i: nat)
    requires i < |es| && DistinctNames(es)
    ensures !Lists(es[..i], es[i].name)
  {
  }

  lemma SubsetSize<T>(a: set<T>, b: set<T>)
    requires a <= b
    ensures |a| <= |b|
    ensures |a| == |b| ==> a == b
  {
    if a != b {
      assert |b - a| == |b| - |a|;
    }
  }

  // ---------------------------------------------------------------- what refreshes achieve

  lemma AppliedKeepsKeyed(before: map<bytes, Server>, es: seq<Endpoint>, after: map<bytes, Server>, byId: map<nat, bytes>)
    requires Keyed(before, byId) && Applied(before, es, after)
    ensures Keyed(after, byId)
  {
    forall n | n in after
      ensures n in before && before[n].enabled ==> after[n].enabled && after[n].session == before[n].session
      ensures n in before ==> after[n].serverId == before[n].serverId
      ensures n !in before ==> after[n].session == 0 == after[n].serverId
      ensures n in before && !before[n].enabled && after[n].enabled ==> after[n].session == 0
    {
      AppliedAt(before, es, after, n);
    }
  }

  /** Each name of the table after the endpoints were taken in. */
  lemma AppliedAt(before: map<bytes, Server>, es: seq<Endpoint>, after: map<bytes, Server>, n: bytes)
    requires Applied(before, es, after) && n in after
    ensures n in before ==>
              || after[n] == before[n]
              || exists k :: 0 <= k < |es| && es[k].name == n && after[n] == Refreshed(before[n], es[k])
    ensures n !in before ==> exists k :: 0 <= k < |es| && es[k].name == n && after[n] == NewServer(es[k])
  {
    if Lists(es, n) {
      var k :| 0 <= k < |es| && es[k].name == n;
      assert Took(before, es[k], after);
    }
  }

  lemma AppliedKeepsStale(before: map<bytes, Server>, es: seq<Endpoint>, after: map<bytes, Server>)
    requires Applied(before, es, after)
    ensures Stale(after, es) == Stale(before, es)
  {
  }

  /** A refresh leaves every static server alone, has a server under every name seen, keeps the
      unseen servers with calls, and takes exactly the evicted names off the stale ones. */
  lemma RefreshOutcome(before: map<bytes, Server>, es: seq<Endpoint>, after: map<bytes, Server>, evicted: set<bytes>)
    requires Reconciled(before, es, after, evicted)
    ensures forall n :: n in after <==> (n in before || Lists(es, n)) && n !in evicted
    ensures forall n :: n in before && !before[n].dynamic ==> n in after && after[n] == before[n]
    ensures forall n :: n in before && before[n].calls > 0 && !Lists(es, n) ==> n in after && after[n] == before[n]
    ensures forall k :: 0 <= k < |es| ==> UpToDate(before, es[k], after) && Took(before, es[k], after)
    ensures forall n :: n in after && n !in before ==> after[n].dynamic
    ensures forall n :: n in after && n in before ==> after[n].dynamic == before[n].dynamic
    ensures Stale(after, es) == Stale(before, es) - evicted
  {
    hide UpToDate, Took, IsStale;
    var mid: map<bytes, Server> :| Applied(before, es, mid) && after == mid - evicted;
    AppliedKeepsStale(before, es, mid);
    StaleSet(before, es);
    forall k | 0 <= k < |es| ensures es[k].name !in evicted && Took(before, es[k], after) && UpToDate(before, es[k], after) {
      assert Lists(es, es[k].name);
      TookStays(before, es[k], mid, evicted);
      TookIsUpToDate(before, es[k], after);
    }
    forall n | n in mid
      ensures n !in before ==> mid[n].dynamic
      ensures n in before ==> mid[n].dynamic == before[n].dynamic
    {
      AppliedAt(before, es, mid, n);
    }
    StaleLeft(before, es, mid, evicted);
  }

  lemma StaleSet(servers: map<bytes, Server>, es: seq<Endpoint>)
    ensures forall n :: n in Stale(servers, es) ==> n in servers && servers[n].dynamic && servers[n].calls == 0 && !Lists(es, n)
  {
  }

  lemma StaleLeft(before: map<bytes, Server>, es: seq<Endpoint>, mid: map<bytes, Server>, evicted: set<bytes>)
    requires Stale(mid, es) == Stale(before, es)
    ensures Stale(mid - evicted, es) == Stale(before, es) - evicted
  {
  }

  lemma TookStays(before: map<bytes, Server>, e: Endpoint, mid: map<bytes, Server>, evicted: set<bytes>)
    requires Took(before, e, mid) && e.name !in evicted
    ensures Took(before, e, mid - evicted)
  {
  }

  lemma TookIsUpToDate(before: map<bytes, Server>, e: Endpoint, after: map<bytes, Server>)
    requires Took(before, e, after)
    ensures UpToDate(before, e, after)
  {
  }

  /** With at most 64 stale servers the dynamic names are afterwards exactly the seen ones that no
      static server shadows and the unseen ones with calls in progress. */
  lemma RefreshIsExact(before: map<bytes, Server>, es: seq<Endpoint>, after: map<bytes, Server>, evicted: set<bytes>)
    requires Reconciled(before, es, after, evicted) && |Stale(before, es)| <= 64
    ensures forall n :: n in after && after[n].dynamic <==>
              || (Lists(es, n) && !(n in before && !before[n].dynamic))
              || (n in before && before[n].dynamic && before[n].calls > 0)
    ensures Stale(after, es) == {}
  {
    RefreshOutcome(before, es, after, evicted);
    SubsetSize(evicted, Stale(before, es));
    forall n ensures n in evicted <==> IsStale(before, es, n) {
    }
  }

  /** Refreshes one after the other that see the same pods. */
  ghost predicate Refreshes(tables: seq<map<bytes, Server>>, es: seq<Endpoint>, evicted: seq<set<bytes>>) {
    && |tables| == |evicted| + 1
    && forall i :: 0 <= i < |evicted| ==> Reconciled(tables[i], es, tables[i + 1], evicted[i])
  }

  /** Each refresh removes 64 stale servers until none is left. */
  lemma {:induction false} RepeatedRefresh(tables: seq<map<bytes, Server>>, es: seq<Endpoint>, evicted: seq<set<bytes>>, k: nat)
    requires Refreshes(tables, es, evicted) && k < |tables|
    ensures |Stale(tables[k], es)| ==
              if |Stale(tables[0], es)| <= k * 64 then 0 else |Stale(tables[0], es)| - k * 64
  {
    if k > 0 {
      RepeatedRefresh(tables, es, evicted, k - 1);
      RefreshOutcome(tables[k - 1], es, tables[k], evicted[k - 1]);
      var stale, out := Stale(tables[k - 1], es), evicted[k - 1];
      assert |stale - out| == |stale| - |out|;
    }
  }

  /** With none left, a further refresh changes nothing at all. */
  lemma RefreshReachesFixedPoint(tables: seq<map<bytes, Server>>, es: seq<Endpoint>, evicted: seq<set<bytes>>, k: nat)
    requires Refreshes(tables, es, evicted) && DistinctNames(es)
    requires 0 < k < |evicted| && |Stale(tables[0], es)| <= k * 64
    ensures tables[k + 1] == tables[k]
  {
    RepeatedRefresh(tables, es, evicted, k);
    var before, after := tables[k], tables[k + 1];
    RefreshOutcome(tables[k - 1], es, before, evicted[k - 1]);
    RefreshOutcome(before, es, after, evicted[k]);
    assert evicted[k] == {};
    forall n | n in before || n in after ensures n in before && n in after && after[n] == before[n] {
      SettledAt(tables[k - 1], es, before, after, n);
    }
  }

  /** What one refresh has taken in the next one finds up to date. */
  lemma SettledAt(first: map<bytes, Server>, es: seq<Endpoint>, before: map<bytes, Server>, after: map<bytes, Server>, n: bytes)
    requires forall k :: 0 <= k < |es| ==> Took(first, es[k], before) && Took(before, es[k], after)
    requires Reconciled(before, es, after, {})
    requires forall m :: m in first && !first[m].dynamic ==> m in before && before[m] == first[m]
    requires n in before || n in after
    ensures n in before && n in after && after[n] == before[n]
  {
    var mid: map<bytes, Server> :| Applied(before, es, mid) && after == mid - {};
    assert after == mid;
    AppliedAt(before, es, after, n);
    if k :| 0 <= k < |es| && es[k].name == n {
      assert Took(first, es[k], before) && Took(before, es[k], after);
    }
  }
}
