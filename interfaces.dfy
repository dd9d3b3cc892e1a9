/** The per-host record building of the interfaces agent
    (infoset/agents/standard/interfaces.py).

    For every configured host `query` skips hosts without SNMP credentials
    or without IF-MIB support (with warnings 1022 and 1024) and uploads the
    others.  `upload` derives the ignore list from the interfaces'
    oper-status, gives up on a host without interface descriptions, builds
    the 32-bit and the 64-bit octet families, posts, and purges the cache
    only when the post succeeded.

    The SNMP answers are inputs: a dict answer is a table of
    `(ifIndex, value)` pairs in the dict's iteration order, the descriptions
    are a map, and `supported()` is a boolean.  The `Agent` object records
    the calls made on it; the polling agent keeps a log of the warnings it
    issued and of the agent sessions it ran.
 */
module Interfaces {
  import opened Failures
  import Maps

  /** A dict answer of an SNMP walk, in iteration order. */
  type Table<V> = seq<(int, V)>

  /** What the 32-bit `mib_if` query object answers. */
  datatype IfMib = IfMib(
    supported: bool,
    operStatus: Table<int>,
    descriptions: map<int, string>,
    inOctets: Table<int>,
    outOctets: Table<int>)

  /** What the 64-bit `mib_if_64` query object answers. */
  datatype IfMib64 = IfMib64(
    supported: bool,
    hcInOctets: Table<int>,
    hcOutOctets: Table<int>)

  /** One configured host, with everything the outside world answers
      about it: whether SNMP credentials were found, the UID the agent
      library derives for it, both MIB objects, and whether the server
      accepts the post. */
  datatype Host = Host(
    hostname: string,
    hasCredentials: bool,
    uid: string,
    mib: IfMib,
    mib64: IfMib64,
    postAccepted: bool)

  /** `data[label][source] = value`: octet label -> interface description -> value. */
  type Chart = map<string, map<string, int>>

  /** A call made on an `Agent` object. */
  datatype Call =
    | PopulateDict(prefix: string, data: Chart, baseType: string)
    | Post
    | Purge

  /** The calls made on the agent object built for one host. */
  datatype Session = Session(uid: string, hostname: string, calls: seq<Call>)

  /** What the polling agent leaves behind for one host. */
  datatype Event =
    | Warn(code: int, hostname: string)
    | Polled(session: Session)

  const IN_OCTETS := "ifInOctets"
  const OUT_OCTETS := "ifOutOctets"
  const HC_IN_OCTETS := "ifHCInOctets"
  const HC_OUT_OCTETS := "ifHCOutOctets"
  const NO_CREDENTIALS := 1022
  const NO_IF_MIB := 1024

  // ---------------------------------------------------------------------
  // The ignore list
  // ---------------------------------------------------------------------

  /** The ifIndexes whose oper-status is not 1 (up), in table order. */
  function Down(status: Table<int>): seq<int> {
    if status == [] then []
    else
      var rest := Down(status[..|status| - 1]);
      var (key, value) := status[|status| - 1];
      if value != 1 then rest + [key] else rest
  }

  /** The ignore list holds exactly the interfaces that are not up. */
  lemma {:induction false} DownMembers(status: Table<int>)
    ensures forall k :: k in Down(status) <==>
      exists i :: 0 <= i < |status| && status[i].0 == k && status[i].1 != 1
  {
    if status != [] {
      var init := status[..|status| - 1];
      DownMembers(init);
      forall k ensures k in Down(status) <==> exists i :: 0 <= i < |status| && status[i].0 == k && status[i].1 != 1 {
        if exists i :: 0 <= i < |init| && init[i].0 == k && init[i].1 != 1 {
          var i :| 0 <= i < |init| && init[i].0 == k && init[i].1 != 1;
          assert status[i] == init[i];
        }
        if exists i :: 0 <= i < |status| && status[i].0 == k && status[i].1 != 1 {
          var i :| 0 <= i < |status| && status[i].0 == k && status[i].1 != 1;
          if i < |init| {
            assert init[i] == status[i];
          }
        }
      }
    }
  }

  /** The loop of `upload` that appends every interface that is not up. */
  method IgnoreList(status: Table<int>) returns (ignore: seq<int>)
    ensures ignore == Down(status)
  {
    ignore := [];
    for i := 0 to |status|
      invariant ignore == Down(status[..i])
    {
      var (key, value) := status[i];
      assert status[..i + 1][..i] == status[..i];
      if value != 1 {
        ignore := ignore + [key];
      }
    }
    assert status[..|status|] == status;
  }

  // ---------------------------------------------------------------------
  // Relabelling one metric
  // ---------------------------------------------------------------------

  /** `data[label]` after the inner loop over one metric's table: ignored
      interfaces are skipped, the others are relabelled by description with
      the octet count turned into bits; a kept interface without a
      description raises KeyError. */
  function Relabel(table: Table<int>, ignore: seq<int>, descriptions: map<int, string>): Result<map<string, int>> {
    if table == [] then Ok(map[])
    else
      var init :- Relabel(table[..|table| - 1], ignore, descriptions);
      var (key, value) := table[|table| - 1];
      if key in ignore then Ok(init)
      else if key !in descriptions then Err(Uncaught(KeyError))
      else Ok(init[descriptions[key] := value * 8])
  }

  /** Entry `i` is not ignored but has no description. */
  ghost predicate Undescribed(table: Table<int>, ignore: seq<int>, descriptions: map<int, string>, i: int)
    requires 0 <= i < |table|
  {
    table[i].0 !in ignore && table[i].0 !in descriptions
  }

  /** Relabelling fails exactly when a kept interface has no description,
      and then with KeyError. */
  lemma {:induction false} RelabelErr(table: Table<int>, ignore: seq<int>, descriptions: map<int, string>)
    ensures Relabel(table, ignore, descriptions).Err? <==>
      exists i :: 0 <= i < |table| && Undescribed(table, ignore, descriptions, i)
    ensures Relabel(table, ignore, descriptions).Err? ==>
      Relabel(table, ignore, descriptions).failure == Uncaught(KeyError)
  {
    if table != [] {
      var init := table[..|table| - 1];
      RelabelErr(init, ignore, descriptions);
      if Relabel(init, ignore, descriptions).Ok? && Relabel(table, ignore, descriptions).Err? {
        assert Undescribed(table, ignore, descriptions, |table| - 1);
      }
      if exists i :: 0 <= i < |init| && Undescribed(init, ignore, descriptions, i) {
        var i :| 0 <= i < |init| && Undescribed(init, ignore, descriptions, i);
        assert table[i] == init[i];
        assert Undescribed(table, ignore, descriptions, i);
      }
      if exists i :: 0 <= i < |table| && Undescribed(table, ignore, descriptions, i) {
        var i :| 0 <= i < |table| && Undescribed(table, ignore, descriptions, i);
        if i < |init| {
          assert init[i] == table[i];
          assert Undescribed(init, ignore, descriptions, i);
        }
      }
    }
  }

  /** Entry `i` is not ignored and has a description. */
  ghost predicate Kept(table: Table<int>, ignore: seq<int>, descriptions: map<int, string>, i: int)
    requires 0 <= i < |table|
  {
    table[i].0 !in ignore && table[i].0 in descriptions
  }

  /** Entry `i` is kept and described, and no later kept entry carries the
      same description. */
  ghost predicate LastWriter(table: Table<int>, ignore: seq<int>, descriptions: map<int, string>, i: int)
    requires 0 <= i < |table|
  {
    && table[i].0 !in ignore && table[i].0 in descriptions
    && forall j :: i < j < |table| && table[j].0 !in ignore && table[j].0 in descriptions ==>
         descriptions[table[j].0] != descriptions[table[i].0]
  }

  /** What a successful relabelling holds: a description for every kept
      interface and nothing for the ignored ones; under each description
      eight times the octets of the last kept interface that carries it. */
  lemma {:induction false} RelabelContent(table: Table<int>, ignore: seq<int>, descriptions: map<int, string>)
    requires Relabel(table, ignore, descriptions).Ok?
    ensures var m := Relabel(table, ignore, descriptions).value;
      forall s :: s in m <==> exists i :: 0 <= i < |table| && Kept(table, ignore, descriptions, i) && descriptions[table[i].0] == s
    ensures var m := Relabel(table, ignore, descriptions).value;
      forall i :: 0 <= i < |table| && LastWriter(table, ignore, descriptions, i) ==>
        m[descriptions[table[i].0]] == 8 * table[i].1
  {
    if table != [] {
      var init := table[..|table| - 1];
      RelabelContent(init, ignore, descriptions);
      var m := Relabel(table, ignore, descriptions).value;
      var m0 := Relabel(init, ignore, descriptions).value;
      var last := table[|table| - 1];
      forall s ensures s in m <==> exists i :: 0 <= i < |table| && Kept(table, ignore, descriptions, i) && descriptions[table[i].0] == s
      {
        if s in m0 {
          var i :| 0 <= i < |init| && Kept(init, ignore, descriptions, i) && descriptions[init[i].0] == s;
          assert table[i] == init[i];
          assert Kept(table, ignore, descriptions, i);
        }
        if exists i :: 0 <= i < |table| && Kept(table, ignore, descriptions, i) && descriptions[table[i].0] == s {
          var i :| 0 <= i < |table| && Kept(table, ignore, descriptions, i) && descriptions[table[i].0] == s;
          if i < |init| {
            assert init[i] == table[i];
            assert Kept(init, ignore, descriptions, i);
          }
        }
      }
      forall i | 0 <= i < |table| && LastWriter(table, ignore, descriptions, i)
        ensures m[descriptions[table[i].0]] == 8 * table[i].1
      {
        if i < |init| {
          assert init[i] == table[i];
          assert LastWriter(init, ignore, descriptions, i);
        }
      }
    }
  }

  /** Every relabelled value is a whole number of bytes, in bits. */
  lemma {:induction false} RelabelInBits(table: Table<int>, ignore: seq<int>, descriptions: map<int, string>)
    requires Relabel(table, ignore, descriptions).Ok?
    ensures var m := Relabel(table, ignore, descriptions).value;
      forall s :: s in m ==> m[s] % 8 == 0
  {
    if table != [] {
      RelabelInBits(table[..|table| - 1], ignore, descriptions);
    }
  }

  // ---------------------------------------------------------------------
  // A family of metrics
  // ---------------------------------------------------------------------

  /** The inner dict of `metric`, as the defaultdict hands it out. */
  function Row(data: Chart, metric: string): map<string, int> {
    if metric in data then data[metric] else map[]
  }

  /** Adding one metric's relabelled entries to the defaultdict: a metric
      with no entry written never appears. */
  function Merge(data: Chart, metric: string, m: map<string, int>): Chart {
    if m == map[] then data else data[metric := Row(data, metric) + m]
  }

  /** The nested defaultdict after the loop over `labels`. */
  function ChartOf(labels: seq<string>, tables: seq<Table<int>>, ignore: seq<int>, descriptions: map<int, string>): Result<Chart>
    requires |labels| == |tables|
  {
    if labels == [] then Ok(map[])
    else
      var n := |labels| - 1;
      var init :- ChartOf(labels[..n], tables[..n], ignore, descriptions);
      var m :- Relabel(tables[n], ignore, descriptions);
      Ok(Merge(init, labels[n], m))
  }

  /** Building a family fails exactly when relabelling one of its metrics
      fails, and then with KeyError. */
  lemma {:induction false} ChartOfErr(labels: seq<string>, tables: seq<Table<int>>, ignore: seq<int>, descriptions: map<int, string>)
    requires |labels| == |tables|
    ensures ChartOf(labels, tables, ignore, descriptions).Err? <==>
      exists j :: 0 <= j < |tables| && Relabel(tables[j], ignore, descriptions).Err?
    ensures ChartOf(labels, tables, ignore, descriptions).Err? ==>
      ChartOf(labels, tables, ignore, descriptions).failure == Uncaught(KeyError)
  {
    if labels != [] {
      var n := |labels| - 1;
      ChartOfErr(labels[..n], tables[..n], ignore, descriptions);
      RelabelErr(tables[n], ignore, descriptions);
      if exists j :: 0 <= j < n && Relabel(tables[..n][j], ignore, descriptions).Err? {
        var j :| 0 <= j < n && Relabel(tables[..n][j], ignore, descriptions).Err?;
        assert tables[j] == tables[..n][j];
      }
      if exists j :: 0 <= j < |tables| && Relabel(tables[j], ignore, descriptions).Err? {
        var j :| 0 <= j < |tables| && Relabel(tables[j], ignore, descriptions).Err?;
        if j < n {
          assert tables[..n][j] == tables[j];
        }
      }
    }
  }

  /** A family of two distinct metrics: each metric holds exactly its own
      relabelled entries, and is present exactly when it has some. */
  lemma ChartOfPair(first: string, second: string, t1: Table<int>, t2: Table<int>, ignore: seq<int>, descriptions: map<int, string>)
    requires first != second
    requires ChartOf([first, second], [t1, t2], ignore, descriptions).Ok?
    ensures Relabel(t1, ignore, descriptions).Ok? && Relabel(t2, ignore, descriptions).Ok?
    ensures var c := ChartOf([first, second], [t1, t2], ignore, descriptions).value;
      && c.Keys <= {first, second}
      && (first in c <==> Relabel(t1, ignore, descriptions).value != map[])
      && (second in c <==> Relabel(t2, ignore, descriptions).value != map[])
      && (first in c ==> c[first] == Relabel(t1, ignore, descriptions).value)
      && (second in c ==> c[second] == Relabel(t2, ignore, descriptions).value)
  {
    assert [first, second][..1] == [first];
    assert [t1, t2][..1] == [t1];
    assert [first][..0] == [];
    assert [t1][..0] == [];
    var r1 := Relabel(t1, ignore, descriptions);
    var r2 := Relabel(t2, ignore, descriptions);
    assert ChartOf([first], [t1], ignore, descriptions).Ok?;
    assert r1.Ok?;
    assert ChartOf([first], [t1], ignore, descriptions) == Ok(Merge(map[], first, r1.value));
    var c1 := Merge(map[], first, r1.value);
    assert ChartOf([first, second], [t1, t2], ignore, descriptions) == Ok(Merge(c1, second, r2.value));
  }

  /** Some metric of the family answered nothing. */
  predicate AnyEmpty(tables: seq<Table<int>>) {
    exists j :: 0 <= j < |tables| && tables[j] == []
  }

  /** The calls `_update_32` / `_update_64` make once the family is
      supported: none when a metric answered nothing, otherwise one
      `populate_dict` with an empty prefix. */
  function FamilyCalls(labels: seq<string>, tables: seq<Table<int>>, ignore: seq<int>,
                       descriptions: map<int, string>, baseType: string): Result<seq<Call>>
    requires |labels| == |tables|
  {
    if AnyEmpty(tables) then Ok([])
    else
      var chart :- ChartOf(labels, tables, ignore, descriptions);
      Ok([PopulateDict("", chart, baseType)])
  }

  function Family32(ignore: seq<int>, descriptions: map<int, string>, mib: IfMib): Result<seq<Call>> {
    FamilyCalls([IN_OCTETS, OUT_OCTETS], [mib.inOctets, mib.outOctets], ignore, descriptions, "counter32")
  }

  function Family64(ignore: seq<int>, descriptions: map<int, string>, mib64: IfMib64): Result<seq<Call>> {
    if !mib64.supported then Ok([])
    else FamilyCalls([HC_IN_OCTETS, HC_OUT_OCTETS], [mib64.hcInOctets, mib64.hcOutOctets], ignore, descriptions, "counter64")
  }

  /** A family whose metrics include an empty answer populates nothing. */
  lemma EmptyMetricPopulatesNothing(labels: seq<string>, tables: seq<Table<int>>, ignore: seq<int>,
                                    descriptions: map<int, string>, baseType: string, j: int)
    requires |labels| == |tables| && 0 <= j < |tables| && tables[j] == []
    ensures FamilyCalls(labels, tables, ignore, descriptions, baseType) == Ok([])
  {
  }

  /** A family populates at most once, with an empty prefix and its own
      base type, and never posts or purges. */
  lemma FamilyCallsShape(labels: seq<string>, tables: seq<Table<int>>, ignore: seq<int>,
                         descriptions: map<int, string>, baseType: string)
    requires |labels| == |tables|
    requires FamilyCalls(labels, tables, ignore, descriptions, baseType).Ok?
    ensures var calls := FamilyCalls(labels, tables, ignore, descriptions, baseType).value;
      && |calls| <= 1
      && (|calls| == 1 <==> !AnyEmpty(tables))
      && forall c :: c in calls ==> c.PopulateDict? && c.prefix == "" && c.baseType == baseType
  {
  }

  /** The 32-bit family is reported as counter32 and the 64-bit family as
      counter64, each under its two octet labels. */
  lemma FamilyBaseTypes(ignore: seq<int>, descriptions: map<int, string>, mib: IfMib, mib64: IfMib64)
    ensures Family32(ignore, descriptions, mib).Ok? ==>
      forall c :: c in Family32(ignore, descriptions, mib).value ==>
        c.PopulateDict? && c.prefix == "" && c.baseType == "counter32" && c.data.Keys <= {IN_OCTETS, OUT_OCTETS}
    ensures Family64(ignore, descriptions, mib64).Ok? ==>
      forall c :: c in Family64(ignore, descriptions, mib64).value ==>
        c.PopulateDict? && c.prefix == "" && c.baseType == "counter64" && c.data.Keys <= {HC_IN_OCTETS, HC_OUT_OCTETS}
  {
    var t32 := [mib.inOctets, mib.outOctets];
    if Family32(ignore, descriptions, mib).Ok? && !AnyEmpty(t32) {
      ChartOfPair(IN_OCTETS, OUT_OCTETS, mib.inOctets, mib.outOctets, ignore, descriptions);
    }
    var t64 := [mib64.hcInOctets, mib64.hcOutOctets];
    if mib64.supported && Family64(ignore, descriptions, mib64).Ok? && !AnyEmpty(t64) {
      ChartOfPair(HC_IN_OCTETS, HC_OUT_OCTETS, mib64.hcInOctets, mib64.hcOutOctets, ignore, descriptions);
    }
  }

  // ---------------------------------------------------------------------
  // One upload, one query
  // ---------------------------------------------------------------------

  /** The calls `upload` makes on the host's agent object. */
  function UploadCalls(host: Host): Result<seq<Call>> {
    var ignore := Down(host.mib.operStatus);
    if |host.mib.descriptions| == 0 then Ok([])
    else
      var calls32 :- Family32(ignore, host.mib.descriptions, host.mib);
      var calls64 :- Family64(ignore, host.mib.descriptions, host.mib64);
      Ok(calls32 + calls64 + [Post] + if host.postAccepted then [Purge] else [])
  }

  /** A host without descriptions gets an agent object and no call on it. */
  lemma EmptyDescriptionsNoCalls(host: Host)
    requires |host.mib.descriptions| == 0
    ensures UploadCalls(host) == Ok([])
  {
  }

  /** With descriptions, a completed upload posts exactly once, as the
      last call but a possible purge, and purges exactly when the post
      succeeded. */
  lemma PurgeIffPosted(host: Host)
    requires |host.mib.descriptions| > 0
    requires UploadCalls(host).Ok?
    ensures var calls := UploadCalls(host).value;
      && (Purge in calls <==> host.postAccepted)
      && Post in calls
      && (host.postAccepted ==> calls[|calls| - 1] == Purge && calls[|calls| - 2] == Post)
      && (!host.postAccepted ==> calls[|calls| - 1] == Post)
  {
    var ignore := Down(host.mib.operStatus);
    FamilyBaseTypes(ignore, host.mib.descriptions, host.mib, host.mib64);
  }

  /** An unsupported 64-bit MIB changes nothing about the 32-bit family,
      which is built first and on its own. */
  lemma Unsupported64KeepsFamily32(host: Host)
    requires |host.mib.descriptions| > 0 && !host.mib64.supported
    ensures var f32 := Family32(Down(host.mib.operStatus), host.mib.descriptions, host.mib);
      UploadCalls(host) == if f32.Err? then Err(f32.failure)
        else Ok(f32.value + [Post] + if host.postAccepted then [Purge] else [])
  {
    var f32 := Family32(Down(host.mib.operStatus), host.mib.descriptions, host.mib);
    if f32.Ok? {
      assert f32.value + [] == f32.value;
    }
  }

  /** A missing description fails the whole upload with KeyError. */
  lemma UploadFailsOnlyOnKeyError(host: Host)
    requires UploadCalls(host).Err?
    ensures UploadCalls(host).failure == Uncaught(KeyError)
  {
    var ignore := Down(host.mib.operStatus);
    ChartOfErr([IN_OCTETS, OUT_OCTETS], [host.mib.inOctets, host.mib.outOctets], ignore, host.mib.descriptions);
    ChartOfErr([HC_IN_OCTETS, HC_OUT_OCTETS], [host.mib64.hcInOctets, host.mib64.hcOutOctets], ignore, host.mib.descriptions);
  }

  /** What `query` leaves behind for one host. */
  function HostEvents(host: Host): (r: Result<seq<Event>>)
    ensures r.Ok? ==> |r.value| == 1
    ensures r.Ok? ==> (r.value[0].Warn? <==> !host.hasCredentials || !host.mib.supported)
    ensures r.Ok? && r.value[0].Warn? ==> r.value[0].hostname == host.hostname
    ensures r.Ok? && r.value[0].Polled? ==>
      r.value[0].session.hostname == host.hostname && r.value[0].session.uid == host.uid
    ensures r.Err? ==> host.hasCredentials && host.mib.supported && UploadCalls(host).Err?
  {
    if !host.hasCredentials then Ok([Warn(NO_CREDENTIALS, host.hostname)])
    else if !host.mib.supported then Ok([Warn(NO_IF_MIB, host.hostname)])
    else
      var calls :- UploadCalls(host);
      Ok([Polled(Session(host.uid, host.hostname, calls))])
  }

  /** What `query` leaves behind for a list of hosts, in order; an uncaught
      exception ends the loop. */
  function QueryEvents(hosts: seq<Host>): Result<seq<Event>> {
    if hosts == [] then Ok([])
    else
      var init :- QueryEvents(hosts[..|hosts| - 1]);
      var last :- HostEvents(hosts[|hosts| - 1]);
      Ok(init + last)
  }

  /** Polling ends at host `k`: the hosts before it went through and
      uploading it raised. */
  predicate StoppedAt(hosts: seq<Host>, k: int) {
    0 <= k < |hosts| && QueryEvents(hosts[..k]).Ok? && HostEvents(hosts[k]).Err?
  }

  /** A completed poll leaves exactly one event per host, in host order. */
  lemma {:induction false} QueryEventsPerHost(hosts: seq<Host>)
    requires QueryEvents(hosts).Ok?
    ensures |QueryEvents(hosts).value| == |hosts|
    ensures forall i :: 0 <= i < |hosts| ==>
      HostEvents(hosts[i]).Ok? && QueryEvents(hosts).value[i] == HostEvents(hosts[i]).value[0]
  {
    if hosts != [] {
      var n := |hosts| - 1;
      QueryEventsPerHost(hosts[..n]);
      forall i | 0 <= i < n
        ensures HostEvents(hosts[i]).Ok? && QueryEvents(hosts).value[i] == HostEvents(hosts[i]).value[0]
      {
        assert hosts[..n][i] == hosts[i];
      }
    }
  }

  /** Sequential composition of two outcomes. */
  function Then(a: Result<seq<Event>>, b: Result<seq<Event>>): Result<seq<Event>> {
    if a.Err? then a else if b.Err? then b else Ok(a.value + b.value)
  }

  /** Polling a list in two parts is polling the first part, then the
      second. */
  lemma {:induction false} QueryEventsAppend(a: seq<Host>, b: seq<Host>)
    ensures QueryEvents(a + b) == Then(QueryEvents(a), QueryEvents(b))
    decreases |b|
  {
    if b == [] {
      assert a + b == a;
      if QueryEvents(a).Ok? {
        assert QueryEvents(a).value + [] == QueryEvents(a).value;
      }
    } else {
      var n := |b| - 1;
      QueryEventsAppend(a, b[..n]);
      assert (a + b)[..|a + b| - 1] == a + b[..n];
      assert (a + b)[|a + b| - 1] == b[n];
      var qa, qb, last := QueryEvents(a), QueryEvents(b[..n]), HostEvents(b[n]);
      if qa.Ok? && qb.Ok? && last.Ok? {
        assert qa.value + qb.value + last.value == qa.value + (qb.value + last.value);
      }
    }
  }

  /** One more host of the loop. */
  lemma QueryStep(hosts: seq<Host>, i: int)
    requires 0 <= i < |hosts|
    ensures QueryEvents(hosts[..i + 1]) == Then(QueryEvents(hosts[..i]), HostEvents(hosts[i]))
  {
    assert hosts[..i + 1][..i] == hosts[..i];
  }

  /** A host whose upload raises ends the whole poll with its failure. */
  lemma StoppedFails(hosts: seq<Host>, k: int)
    requires StoppedAt(hosts, k)
    ensures QueryEvents(hosts) == HostEvents(hosts[k])
  {
    QueryStep(hosts, k);
    QueryEventsAppend(hosts[..k + 1], hosts[k + 1..]);
    assert hosts[..k + 1] + hosts[k + 1..] == hosts;
  }

  /** A host without credentials or without IF-MIB support gets a warning
      and no upload. */
  lemma SkippedHost(host: Host)
    requires !host.hasCredentials || !host.mib.supported
    ensures HostEvents(host).Ok?
    ensures |HostEvents(host).value| == 1 && HostEvents(host).value[0].Warn?
    ensures HostEvents(host).value[0].code == if !host.hasCredentials then NO_CREDENTIALS else NO_IF_MIB
  {
  }

  /** Skipping a host does not stop the loop: the hosts after it are polled
      as if it were not there, after its warning. */
  lemma SkippedHostContinues(before: seq<Host>, host: Host, after: seq<Host>)
    requires !host.hasCredentials || !host.mib.supported
    ensures QueryEvents(before + [host] + after) ==
      Then(Then(QueryEvents(before), HostEvents(host)), QueryEvents(after))
  {
    QueryEventsAppend(before + [host], after);
    QueryEventsAppend(before, [host]);
    assert [host][..0] == [];
  }

  // ---------------------------------------------------------------------
  // The objects
  // ---------------------------------------------------------------------

  /** The agent object of one upload, recording the calls made on it;
      `accepts` is what the server answers to the post. */
  class Agent {
    const uid: string
    const hostname: string
    const accepts: bool
    var calls: seq<Call>

    constructor (uid: string, hostname: string, accepts: bool)
      ensures this.uid == uid && this.hostname == hostname && this.accepts == accepts
      ensures calls == []
    {
      this.uid := uid;
      this.hostname := hostname;
      this.accepts := accepts;
      calls := [];
    }

    method PopulateDict(prefix: string, data: Chart, baseType: string)
      modifies this
      ensures calls == old(calls) + [Call.PopulateDict(prefix, data, baseType)]
    {
      calls := calls + [Call.PopulateDict(prefix, data, baseType)];
    }

    method Post() returns (success: bool)
      modifies this
      ensures calls == old(calls) + [Call.Post]
      ensures success == accepts
    {
      calls := calls + [Call.Post];
      success := accepts;
    }

    method Purge()
      modifies this
      ensures calls == old(calls) + [Call.Purge]
    {
      calls := calls + [Call.Purge];
    }
  }

  /** The inner loop of `_update_32` / `_update_64` for one metric: write
      `data[label][descriptions[key]] = value * 8` for every kept
      interface, or raise KeyError. */
  method FillLabel(data: Chart, metric: string, table: Table<int>, ignore: seq<int>, descriptions: map<int, string>)
    returns (r: Result<Chart>)
    ensures r.Ok? <==> Relabel(table, ignore, descriptions).Ok?
    ensures r.Ok? ==> r.value == Merge(data, metric, Relabel(table, ignore, descriptions).value)
    ensures r.Err? ==> r.failure == Uncaught(KeyError)
  {
    var out := data;
    ghost var inner: map<string, int> := map[];
    for i := 0 to |table|
      invariant Relabel(table[..i], ignore, descriptions) == Ok(inner)
      invariant out == Merge(data, metric, inner)
    {
      var (key, value) := table[i];
      assert table[..i + 1][..i] == table[..i];
      if key in ignore {
        continue;
      }
      if key !in descriptions {
        RelabelErr(table[..i + 1], ignore, descriptions);
        assert Undescribed(table[..i + 1], ignore, descriptions, i);
        assert Undescribed(table, ignore, descriptions, i);
        RelabelErr(table, ignore, descriptions);
        return Err(Uncaught(KeyError));
      }
      var source := descriptions[key];
      assert source in inner[source := value * 8];
      assert Row(out, metric) == Row(data, metric) + inner;
      Maps.OverrideUpdate(Row(data, metric), inner, source, value * 8);
      out := out[metric := Row(out, metric)[source := value * 8]];
      inner := inner[source := value * 8];
    }
    assert table[..|table|] == table;
    return Ok(out);
  }

  /** `_update_32` / `_update_64` once the family is supported: give up
      when a metric answered nothing, build the nested dict metric by metric,
      and populate the agent once. */
  method UpdateFamily(agent: Agent, ignore: seq<int>, descriptions: map<int, string>,
                      labels: seq<string>, tables: seq<Table<int>>, baseType: string)
    returns (r: Result<()>)
    requires |labels| == |tables|
    modifies agent
    ensures r.Ok? <==> FamilyCalls(labels, tables, ignore, descriptions, baseType).Ok?
    ensures r.Ok? ==> agent.calls == old(agent.calls) + FamilyCalls(labels, tables, ignore, descriptions, baseType).value
    ensures r.Err? ==> agent.calls == old(agent.calls) && r.failure == Uncaught(KeyError)
  {
    for j := 0 to |tables|
      invariant forall k :: 0 <= k < j ==> tables[k] != []
    {
      if tables[j] == [] {
        return Ok(());
      }
    }
    assert !AnyEmpty(tables);
    var data: Chart := map[];
    for j := 0 to |labels|
      invariant ChartOf(labels[..j], tables[..j], ignore, descriptions) == Ok(data)
      invariant agent.calls == old(agent.calls)
    {
      assert labels[..j + 1][..j] == labels[..j];
      assert tables[..j + 1][..j] == tables[..j];
      var next := FillLabel(data, labels[j], tables[j], ignore, descriptions);
      if next.Err? {
        ChartOfErr(labels, tables, ignore, descriptions);
        return Err(next.failure);
      }
      data := next.value;
    }
    assert labels[..|labels|] == labels;
    assert tables[..|tables|] == tables;
    agent.PopulateDict("", data, baseType);
    return Ok(());
  }

  /** `_update_32`. */
  method Update32(agent: Agent, ignore: seq<int>, descriptions: map<int, string>, mib: IfMib)
    returns (r: Result<()>)
    modifies agent
    ensures r.Ok? <==> Family32(ignore, descriptions, mib).Ok?
    ensures r.Ok? ==> agent.calls == old(agent.calls) + Family32(ignore, descriptions, mib).value
    ensures r.Err? ==> agent.calls == old(agent.calls) && r.failure == Uncaught(KeyError)
  {
    r := UpdateFamily(agent, ignore, descriptions, [IN_OCTETS, OUT_OCTETS], [mib.inOctets, mib.outOctets], "counter32");
  }

  /** `_update_64`: nothing at all when the 64-bit MIB is unsupported. */
  method Update64(agent: Agent, ignore: seq<int>, descriptions: map<int, string>, mib64: IfMib64)
    returns (r: Result<()>)
    modifies agent
    ensures r.Ok? <==> Family64(ignore, descriptions, mib64).Ok?
    ensures r.Ok? ==> agent.calls == old(agent.calls) + Family64(ignore, descriptions, mib64).value
    ensures r.Err? ==> agent.calls == old(agent.calls) && r.failure == Uncaught(KeyError)
  {
    if !mib64.supported {
      return Ok(());
    }
    r := UpdateFamily(agent, ignore, descriptions, [HC_IN_OCTETS, HC_OUT_OCTETS],
                      [mib64.hcInOctets, mib64.hcOutOctets], "counter64");
  }

  class PollingAgent {
    const agentName: string
    /** The warnings issued and the agent session of every host it got to, in order. */
    var log: seq<Event>

    constructor ()
      ensures agentName == "interfaces" && log == []
    {
      agentName := "interfaces";
      log := [];
    }

    /** `upload(uid, hostname, query, query64)`. */
    method Upload(host: Host) returns (r: Result<()>)
      modifies this
      ensures r.Ok? <==> UploadCalls(host).Ok?
      ensures r.Ok? ==> log == old(log) + [Polled(Session(host.uid, host.hostname, UploadCalls(host).value))]
      ensures r.Err? ==> log == old(log) && r.failure == UploadCalls(host).failure
    {
      var agent := new Agent(host.uid, host.hostname, host.postAccepted);
      var ignore := IgnoreList(host.mib.operStatus);
      var descriptions := host.mib.descriptions;
      if |descriptions| == 0 {
        log := log + [Polled(Session(agent.uid, agent.hostname, agent.calls))];
        return Ok(());
      }
      var done32 := Update32(agent, ignore, descriptions, host.mib);
      if done32.Err? {
        UploadFailsOnlyOnKeyError(host);
        return Err(done32.failure);
      }
      var done64 := Update64(agent, ignore, descriptions, host.mib64);
      if done64.Err? {
        UploadFailsOnlyOnKeyError(host);
        return Err(done64.failure);
      }
      var success := agent.Post();
      if success {
        agent.Purge();
      }
      assert UploadCalls(host).Ok? && agent.calls == UploadCalls(host).value;
      log := log + [Polled(Session(agent.uid, agent.hostname, agent.calls))];
      return Ok(());
    }

    /** `query()`: every configured host in turn, skipping those without
        credentials or IF-MIB support. */
    method Query(hosts: seq<Host>) returns (r: Result<()>)
      modifies this
      ensures r.Ok? <==> QueryEvents(hosts).Ok?
      ensures r.Ok? ==> log == old(log) + QueryEvents(hosts).value
      ensures r.Err? ==> exists k :: StoppedAt(hosts, k) && log == old(log) + QueryEvents(hosts[..k]).value
      ensures r.Err? ==> r.failure == QueryEvents(hosts).failure && r.failure == Uncaught(KeyError)
    {
      for i := 0 to |hosts|
        invariant QueryEvents(hosts[..i]).Ok?
        invariant log == old(log) + QueryEvents(hosts[..i]).value
      {
        var host := hosts[i];
        QueryStep(hosts, i);
        if !host.hasCredentials {
          log := log + [Warn(NO_CREDENTIALS, host.hostname)];
          continue;
        }
        if !host.mib.supported {
          log := log + [Warn(NO_IF_MIB, host.hostname)];
          continue;
        }
        var uploaded := Upload(host);
        if uploaded.Err? {
          StoppedFails(hosts, i);
          UploadFailsOnlyOnKeyError(host);
          return Err(uploaded.failure);
        }
      }
      assert hosts[..|hosts|] == hosts;
      return Ok(());
    }
  }
}
