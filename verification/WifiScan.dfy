/** A Wi-Fi scan: readings of access points are merged by network name, ordered by
    signal, and the head of that order is published. */
module WifiScan {

  datatype Network = Network(ssid: string, rssi: int, security: string)

  const MAX_PUBLISHED := 4

  /** The reading at `i` speaks for its name: nothing with that name is stronger, and
      nothing before it is as strong. */
  predicate SpeaksFor(results: seq<Network>, i: nat)
    requires i < |results|
  {
    forall j :: 0 <= j < |results| && results[j].ssid == results[i].ssid ==>
      results[j].rssi <= results[i].rssi && (j < i ==> results[j].rssi < results[i].rssi)
  }

  ghost predicate Best(results: seq<Network>, n: Network) {
    n.ssid != "" && exists i: nat :: i < |results| && results[i] == n && SpeaksFor(results, i)
  }

  predicate Ordered(s: seq<Network>) {
    forall i, j :: 0 <= i < j < |s| ==> s[i].rssi >= s[j].rssi
  }

  predicate DistinctNames(s: seq<Network>) {
    forall i, j :: 0 <= i < j < |s| ==> s[i].ssid != s[j].ssid
  }

  /** The networks of one signal strength, in order. */
  function AtSignal(s: seq<Network>, k: int): seq<Network> {
    if s == [] then [] else (if s[0].rssi == k then [s[0]] else []) + AtSignal(s[1..], k)
  }

  lemma {:induction false} AtSignalConcat(s: seq<Network>, t: seq<Network>, k: int)
    ensures AtSignal(s + t, k) == AtSignal(s, k) + AtSignal(t, k)
  {
    if s == [] {
      assert s + t == t;
    } else {
      var head: seq<Network> := if s[0].rssi == k then [s[0]] else [];
      assert (s + t)[0] == s[0] && (s + t)[1..] == s[1..] + t;
      AtSignalConcat(s[1..], t, k);
      assert head + (AtSignal(s[1..], k) + AtSignal(t, k)) == (head + AtSignal(s[1..], k)) + AtSignal(t, k);
    }
  }

  /** A sort by falling signal that leaves equal signals in their order. */
  ghost predicate StableSort(s: seq<Network>, t: seq<Network>) {
    Ordered(t) && multiset(t) == multiset(s) && forall k: int :: AtSignal(t, k) == AtSignal(s, k)
  }

  /** Put `n` behind everything at least as strong. */
  function Insert(s: seq<Network>, n: Network): seq<Network> {
    if s == [] || s[|s| - 1].rssi >= n.rssi then s + [n]
    else Insert(s[..|s| - 1], n) + [s[|s| - 1]]
  }

  function SortDesc(s: seq<Network>): seq<Network> {
    if s == [] then [] else Insert(SortDesc(s[..|s| - 1]), s[|s| - 1])
  }

  lemma {:induction false} InsertHolds(s: seq<Network>, n: Network)
    ensures multiset(Insert(s, n)) == multiset(s) + multiset{n}
  {
    if s != [] && s[|s| - 1].rssi < n.rssi {
      InsertHolds(s[..|s| - 1], n);
      assert s == s[..|s| - 1] + [s[|s| - 1]];
    }
  }

  lemma AppendOrdered(s: seq<Network>, n: Network)
    requires Ordered(s) && forall x | x in s :: x.rssi >= n.rssi
    ensures Ordered(s + [n])
  {
  }

  lemma {:induction false} InsertSorted(s: seq<Network>, n: Network)
    requires Ordered(s)
    ensures Ordered(Insert(s, n))
  {
    if s != [] && s[|s| - 1].rssi < n.rssi {
      var front, z := s[..|s| - 1], s[|s| - 1];
      InsertSorted(front, n);
      InsertHolds(front, n);
      forall x | x in Insert(front, n) ensures x.rssi >= z.rssi {
        assert x in multiset(Insert(front, n));
      }
      AppendOrdered(Insert(front, n), z);
    } else {
      AppendOrdered(s, n);
    }
  }

  lemma {:induction false} InsertStable(s: seq<Network>, n: Network, k: int)
    requires Ordered(s)
    ensures AtSignal(Insert(s, n), k) == AtSignal(s + [n], k)
  {
    if s != [] && s[|s| - 1].rssi < n.rssi {
      var front, z := s[..|s| - 1], s[|s| - 1];
      InsertStable(front, n, k);
      assert s == front + [z];
      AtSignalConcat(Insert(front, n), [z], k);
      AtSignalConcat(front, [n], k);
      AtSignalConcat(front, [z], k);
      AtSignalConcat(s, [n], k);
    }
  }

  lemma {:induction false} SortDescIsStableSort(s: seq<Network>)
    ensures StableSort(s, SortDesc(s))
  {
    if s != [] {
      var front, z := s[..|s| - 1], s[|s| - 1];
      SortDescIsStableSort(front);
      assert s == front + [z];
      InsertSorted(SortDesc(front), z);
      InsertHolds(SortDesc(front), z);
      forall k: int ensures AtSignal(SortDesc(s), k) == AtSignal(s, k) {
        InsertStable(SortDesc(front), z, k);
        AtSignalConcat(SortDesc(front), [z], k);
        AtSignalConcat(front, [z], k);
      }
    }
  }

  lemma {:induction false} AtSignalHolds(s: seq<Network>, k: int, n: Network)
    ensures n in AtSignal(s, k) <==> n in s && n.rssi == k
  {
    if s != [] { AtSignalHolds(s[1..], k, n); }
  }

  /** The head of an ordered list has the highest signal that occurs. */
  lemma HeadSignal(t: seq<Network>, u: seq<Network>)
    requires t != [] && Ordered(u)
    requires AtSignal(t, t[0].rssi) == AtSignal(u, t[0].rssi)
    ensures u != [] && u[0].rssi >= t[0].rssi
  {
    AtSignalHolds(t, t[0].rssi, t[0]);
    AtSignalHolds(u, t[0].rssi, t[0]);
  }

  lemma TailsAgree(t: seq<Network>, u: seq<Network>, k: int)
    requires t != [] && u != [] && t[0].rssi == u[0].rssi && AtSignal(t, k) == AtSignal(u, k)
    ensures AtSignal(t[1..], k) == AtSignal(u[1..], k)
    ensures k == t[0].rssi ==> t[0] == u[0]
  {
    var t', u' := AtSignal(t[1..], k), AtSignal(u[1..], k);
    if k == t[0].rssi {
      assert ([t[0]] + t')[0] == t[0] && ([u[0]] + u')[0] == u[0];
      assert ([t[0]] + t')[1..] == t' && ([u[0]] + u')[1..] == u';
    } else {
      assert [] + t' == t' && [] + u' == u';
    }
  }

  /** A stable sort has one answer, so any library's stable sort gives `SortDesc`. */
  lemma {:induction false} StableSortUnique(t: seq<Network>, u: seq<Network>)
    requires Ordered(t) && Ordered(u)
    requires forall k: int :: AtSignal(t, k) == AtSignal(u, k)
    ensures t == u
  {
    if t == [] {
      if u != [] { HeadSignal(u, t); }
    } else {
      HeadSignal(t, u);
      HeadSignal(u, t);
      TailsAgree(t, u, t[0].rssi);
      forall k: int ensures AtSignal(t[1..], k) == AtSignal(u[1..], k) { TailsAgree(t, u, k); }
      StableSortUnique(t[1..], u[1..]);
      assert t == [t[0]] + t[1..] && u == [u[0]] + u[1..];
    }
  }

  /** What one name's entry may be after the first `i` readings. */
  ghost predicate Entry(results: seq<Network>, i: nat, ssid: string, n: Network)
    requires i <= |results|
  {
    n.ssid == ssid && Best(results[..i], n)
  }

  /** The dictionary after the first `i` readings: an entry for each name seen. */
  ghost predicate Merged(results: seq<Network>, i: nat, seen: map<string, Network>)
    requires i <= |results|
  {
    && (forall ssid | ssid in seen :: Entry(results, i, ssid, seen[ssid]))
    && (forall j :: 0 <= j < i && results[j].ssid != "" ==> results[j].ssid in seen)
  }

  lemma BestKept(results: seq<Network>, i: nat, n: Network)
    requires i < |results| && Best(results[..i], n)
    requires results[i].ssid == n.ssid ==> results[i].rssi <= n.rssi
    ensures Best(results[..i + 1], n)
  {
    var k: nat :| k < i && results[..i][k] == n && SpeaksFor(results[..i], k);
    assert results[..i + 1][k] == n && SpeaksFor(results[..i + 1], k) by {
      forall j | 0 <= j < i && results[j].ssid == n.ssid
        ensures results[j].rssi <= n.rssi && (j < k ==> results[j].rssi < n.rssi)
      { assert results[..i][j] == results[j]; }
    }
  }

  lemma BestReplaced(results: seq<Network>, i: nat, seen: map<string, Network>)
    requires i < |results| && results[i].ssid != "" && Merged(results, i, seen)
    requires results[i].ssid in seen ==> seen[results[i].ssid].rssi < results[i].rssi
    ensures Best(results[..i + 1], results[i])
  {
    var r := results[i];
    forall j | 0 <= j < i && results[j].ssid == r.ssid ensures results[j].rssi < r.rssi {
      assert Entry(results, i, r.ssid, seen[r.ssid]);
      var k: nat :| k < i && results[..i][k] == seen[r.ssid] && SpeaksFor(results[..i], k);
      assert results[..i][j].ssid == results[..i][k].ssid;
    }
    assert results[..i + 1][i] == r && SpeaksFor(results[..i + 1], i);
  }

  lemma MergeStep(results: seq<Network>, i: nat, seen: map<string, Network>, after: map<string, Network>)
    requires i < |results| && Merged(results, i, seen)
    requires
      var r := results[i];
      after == if r.ssid == "" || (r.ssid in seen && r.rssi <= seen[r.ssid].rssi) then seen else seen[r.ssid := r]
    ensures Merged(results, i + 1, after)
  {
    var r := results[i];
    forall ssid | ssid in after ensures Entry(results, i + 1, ssid, after[ssid]) {
      if ssid in seen && after[ssid] == seen[ssid] {
        assert Entry(results, i, ssid, seen[ssid]);
        BestKept(results, i, seen[ssid]);
      } else {
        BestReplaced(results, i, seen);
      }
    }
  }

  /** `names` lists the keys of `seen` in insertion order. */
  ghost predicate KeysOf(names: seq<string>, seen: map<string, Network>) {
    && (forall i, j :: 0 <= i < j < |names| ==> names[i] != names[j])
    && (forall ssid :: ssid in names <==> ssid in seen)
  }

  /** What a scan returns for the readings: one entry per name, its first strongest
      reading, by falling signal. */
  ghost predicate Scanned(results: seq<Network>, nets: seq<Network>) {
    && Ordered(nets) && DistinctNames(nets)
    && (forall n | n in nets :: Best(results, n))
    && (forall r | r in results && r.ssid != "" :: exists n :: n in nets && n.ssid == r.ssid && n.rssi >= r.rssi)
  }

  lemma BestIsStrongest(results: seq<Network>, n: Network, r: Network)
    requires Best(results, n) && r in results && r.ssid == n.ssid
    ensures n in results && r.rssi <= n.rssi
  {
    var k: nat :| k < |results| && results[k] == n && SpeaksFor(results, k);
    var j :| 0 <= j < |results| && results[j] == r;
  }

  lemma NamesSurviveSort(s: seq<Network>, t: seq<Network>)
    requires DistinctNames(s) && multiset(t) == multiset(s)
    ensures DistinctNames(t)
  {
    forall i, j | 0 <= i < j < |t| ensures t[i].ssid != t[j].ssid {
      if t[i].ssid == t[j].ssid {
        assert t[i] in multiset(s) && t[j] in multiset(s);
        var a :| 0 <= a < |s| && s[a] == t[i];
        var b :| 0 <= b < |s| && s[b] == t[j];
        assert a == b;
        TwiceInSeq(t, i, j);
        OnceInSeq(s, a);
      }
    }
  }

  lemma TwiceInSeq(t: seq<Network>, i: nat, j: nat)
    requires i < j < |t| && t[i] == t[j]
    ensures multiset(t)[t[i]] >= 2
  {
    assert t == t[..i] + [t[i]] + t[i + 1..j] + [t[j]] + t[j + 1..];
  }

  lemma OnceInSeq(s: seq<Network>, a: nat)
    requires a < |s| && DistinctNames(s)
    ensures multiset(s)[s[a]] == 1
  {
    assert s == s[..a] + [s[a]] + s[a + 1..];
    assert s[a] !in s[..a] && s[a] !in s[a + 1..];
  }

  /** The names in the order in which they first appear. */
  function FirstNames(results: seq<Network>): seq<string> {
    if results == [] then []
    else
      var names, ssid := FirstNames(results[..|results| - 1]), results[|results| - 1].ssid;
      if ssid == "" || ssid in names then names else names + [ssid]
  }

  /** The merge loop: the dictionary and its keys in insertion order. */
  method Merge(results: seq<Network>) returns (names: seq<string>, seen: map<string, Network>)
    ensures Merged(results, |results|, seen) && KeysOf(names, seen)
    ensures names == FirstNames(results)
  {
    seen, names := map[], [];
    for i := 0 to |results|
      invariant Merged(results, i, seen) && KeysOf(names, seen)
      invariant names == FirstNames(results[..i])
    {
      var info := results[i];
      assert results[..i + 1][..i] == results[..i];
      ghost var before := seen;
      if info.ssid != "" {
        if info.ssid !in seen {
          names := names + [info.ssid];
          seen := seen[info.ssid := info];
        } else if info.rssi > seen[info.ssid].rssi {
          seen := seen[info.ssid := info];
        }
      }
      MergeStep(results, i, before, seen);
    }
    assert results[..|results|] == results;
  }

  /** The merged entries in first-seen order. */
  ghost predicate Entries(results: seq<Network>, values: seq<Network>) {
    && |values| == |FirstNames(results)|
    && forall i :: 0 <= i < |values| ==> values[i].ssid == FirstNames(results)[i] && Best(results, values[i])
  }

  /** Merge the readings by name, keeping the stronger, then sort. */
  method Scan(results: seq<Network>) returns (nets: seq<Network>)
    ensures Scanned(results, nets)
    ensures exists values :: Entries(results, values) && StableSort(values, nets)
  {
    var names, seen := Merge(results);
    var values := seq(|names|, i requires 0 <= i < |names| && names[i] in seen => seen[names[i]]);
    assert results[..|results|] == results;
    forall i | 0 <= i < |names| ensures values[i].ssid == names[i] && Best(results, values[i]) {
      assert Entry(results, |results|, names[i], seen[names[i]]);
    }
    nets := SortDesc(values);
    SortDescIsStableSort(values);
    assert Entries(results, values);
    SortedScan(results, values, nets);
  }

  lemma SortedScan(results: seq<Network>, values: seq<Network>, nets: seq<Network>)
    requires DistinctNames(values) && StableSort(values, nets)
    requires forall n | n in values :: Best(results, n)
    requires forall r | r in results && r.ssid != "" :: exists n :: n in values && n.ssid == r.ssid
    ensures Scanned(results, nets)
  {
    NamesSurviveSort(values, nets);
    SortedHolds(values, nets);
    forall r | r in results && r.ssid != ""
      ensures exists n :: n in nets && n.ssid == r.ssid && n.rssi >= r.rssi
    {
      var n :| n in values && n.ssid == r.ssid;
      BestIsStrongest(results, n, r);
      assert n in nets;
    }
  }

  lemma SortedHolds(s: seq<Network>, t: seq<Network>)
    requires multiset(t) == multiset(s)
    ensures forall n :: n in t <==> n in s
  {
    forall n ensures n in t <==> n in s { assert n in multiset(t) <==> n in multiset(s); }
  }

  function Published(nets: seq<Network>): (r: seq<Network>)
    ensures |r| <= MAX_PUBLISHED && r <= nets
  {
    if |nets| <= MAX_PUBLISHED then nets else nets[..MAX_PUBLISHED]
  }

  /** The published networks are the strongest: a named reading whose name is not
      published is no stronger than anything published, and the list is full. */
  lemma StrongestPublished(results: seq<Network>, nets: seq<Network>, r: Network)
    requires Scanned(results, nets)
    requires r in results && r.ssid != ""
    requires forall p | p in Published(nets) :: p.ssid != r.ssid
    ensures |Published(nets)| == 4
    ensures forall p | p in Published(nets) :: r.rssi <= p.rssi
  {
    var n :| n in nets && n.ssid == r.ssid && n.rssi >= r.rssi;
    var k :| 0 <= k < |nets| && nets[k] == n;
    var top := Published(nets);
    assert forall i :: 0 <= i < |top| ==> nets[i] == top[i] && top[i] in top;
    assert k >= |top|;
  }

  lemma BestUnique(results: seq<Network>, m: Network, n: Network)
    requires Best(results, m) && Best(results, n) && m.ssid == n.ssid
    ensures m == n
  {
    var k: nat :| k < |results| && results[k] == m && SpeaksFor(results, k);
    var l: nat :| l < |results| && results[l] == n && SpeaksFor(results, l);
    assert k == l;
  }

  /** The answer of a scan is a function of its readings. */
  lemma ScanDetermined(results: seq<Network>, v: seq<Network>, s: seq<Network>, w: seq<Network>, t: seq<Network>)
    requires Entries(results, v) && StableSort(v, s)
    requires Entries(results, w) && StableSort(w, t)
    ensures s == t
  {
    forall i | 0 <= i < |v| ensures v[i] == w[i] { BestUnique(results, v[i], w[i]); }
    assert v == w;
    StableSortUnique(s, t);
  }
}
