/** `check_proxies` and `save_proxy_to_file`: probe every loaded proxy in
    file order and append it to the active or to the dead output. */
module Checker {
  import opened Wrappers
  import opened Json
  import opened Lines
  import opened Classifier
  import opened Prober

  /** How a run of `check_proxies` ends: after the last proxy, or with the
      exception that `test_proxy` raised on the proxy at index `at`. */
  datatype RunOutcome = Completed | Aborted(at: nat)

  /** What `test_proxy(p)` gives when the network answers as the oracles say. */
  function Verdict(p: string, probe: string -> Probe, lookup: Value -> Lookup): ProbeOutcome {
    TestProxy(probe(p), lookup)
  }

  /** `p` is written to the active output (`want`) or to the dead one (`!want`). */
  predicate Routed(p: string, want: bool, probe: string -> Probe, lookup: Value -> Lookup) {
    Verdict(p, probe, lookup).Returned? && Verdict(p, probe, lookup).active == want
  }

  // ---------------------------------------------------------------------
  // Specification of a run
  // ---------------------------------------------------------------------

  /** The number of proxies a run gets through: the index of the first proxy
      whose probe raises, or all of them. */
  function Reached(ps: seq<string>, probe: string -> Probe, lookup: Value -> Lookup): (n: nat)
    ensures n <= |ps|
    ensures forall j :: 0 <= j < n ==> !Verdict(ps[j], probe, lookup).Raised?
    ensures n < |ps| ==> Verdict(ps[n], probe, lookup).Raised?
    decreases |ps|
  {
    if ps == [] then 0
    else if Verdict(ps[0], probe, lookup).Raised? then 0
    else 1 + Reached(ps[1..], probe, lookup)
  }

  /** `Reached` is the first index whose probe raises. */
  lemma ReachedIs(ps: seq<string>, probe: string -> Probe, lookup: Value -> Lookup, n: nat)
    requires n <= |ps|
    requires forall j :: 0 <= j < n ==> !Verdict(ps[j], probe, lookup).Raised?
    requires n < |ps| ==> Verdict(ps[n], probe, lookup).Raised?
    ensures Reached(ps, probe, lookup) == n
  {
  }

  /** The proxies of `ps` routed to one output, in their order in `ps`. */
  function Selected(ps: seq<string>, want: bool, probe: string -> Probe, lookup: Value -> Lookup): seq<string>
    decreases |ps|
  {
    if ps == [] then []
    else
      var last := ps[|ps| - 1];
      Selected(ps[..|ps| - 1], want, probe, lookup) + (if Routed(last, want, probe, lookup) then [last] else [])
  }

  /** `ps` is `a` and `d` merged without reordering either: the last element
      of `ps` is the last element of `a` or of `d`, and the rest interleave. */
  predicate IsInterleaving(ps: seq<string>, a: seq<string>, d: seq<string>)
    decreases |ps|
  {
    if ps == [] then a == [] && d == []
    else
      var last := ps[|ps| - 1];
      (a != [] && a[|a| - 1] == last && IsInterleaving(ps[..|ps| - 1], a[..|a| - 1], d))
      || (d != [] && d[|d| - 1] == last && IsInterleaving(ps[..|ps| - 1], a, d[..|d| - 1]))
  }

  // ---------------------------------------------------------------------
  // Properties of a run
  // ---------------------------------------------------------------------

  /** A proxy is in an output exactly when it is in the input and its probe
      routes it there. */
  lemma {:induction false} SelectedMembers(ps: seq<string>, want: bool, probe: string -> Probe,
                                           lookup: Value -> Lookup, p: string)
    ensures p in Selected(ps, want, probe, lookup) <==> p in ps && Routed(p, want, probe, lookup)
    decreases |ps|
  {
    if ps != [] {
      var init := ps[..|ps| - 1];
      SelectedMembers(init, want, probe, lookup, p);
      assert ps == init + [ps[|ps| - 1]];
    }
  }

  /** When no probe raises, the two outputs split the input: every proxy goes
      to exactly one of them and each keeps the input order. */
  lemma {:induction false} RunInterleaves(ps: seq<string>, probe: string -> Probe, lookup: Value -> Lookup)
    requires forall j :: 0 <= j < |ps| ==> !Verdict(ps[j], probe, lookup).Raised?
    ensures IsInterleaving(ps, Selected(ps, true, probe, lookup), Selected(ps, false, probe, lookup))
    decreases |ps|
  {
    if ps != [] {
      var init, last := ps[..|ps| - 1], ps[|ps| - 1];
      RunInterleaves(init, probe, lookup);
      var a, d := Selected(init, true, probe, lookup), Selected(init, false, probe, lookup);
      assert !Verdict(last, probe, lookup).Raised?;
      if Verdict(last, probe, lookup).active {
        assert Selected(ps, true, probe, lookup) == a + [last];
        assert Selected(ps, false, probe, lookup) == d;
        assert (a + [last])[..|a|] == a;
      } else {
        assert Selected(ps, true, probe, lookup) == a;
        assert Selected(ps, false, probe, lookup) == d + [last];
        assert (d + [last])[..|d|] == d;
      }
    }
  }

  /** An interleaving loses and duplicates nothing. */
  lemma {:induction false} InterleavingCounts(ps: seq<string>, a: seq<string>, d: seq<string>)
    requires IsInterleaving(ps, a, d)
    ensures |a| + |d| == |ps|
    ensures multiset(a) + multiset(d) == multiset(ps)
    decreases |ps|
  {
    if ps != [] {
      var init, last := ps[..|ps| - 1], ps[|ps| - 1];
      MultisetSnoc(ps);
      if a != [] && a[|a| - 1] == last && IsInterleaving(init, a[..|a| - 1], d) {
        InterleavingCounts(init, a[..|a| - 1], d);
        MultisetSnoc(a);
      } else {
        InterleavingCounts(init, a, d[..|d| - 1]);
        MultisetSnoc(d);
      }
    }
  }

  lemma MultisetSnoc(s: seq<string>)
    requires s != []
    ensures multiset(s) == multiset(s[..|s| - 1]) + multiset{s[|s| - 1]}
  {
    assert s == s[..|s| - 1] + [s[|s| - 1]];
  }

  /** The part of the input a run gets through is partitioned losslessly. */
  lemma RunPartition(ps: seq<string>, probe: string -> Probe, lookup: Value -> Lookup)
    ensures var done := ps[..Reached(ps, probe, lookup)];
      var a, d := Selected(done, true, probe, lookup), Selected(done, false, probe, lookup);
      |a| + |d| == |done| && multiset(a) + multiset(d) == multiset(done)
  {
    var done := ps[..Reached(ps, probe, lookup)];
    RunInterleaves(done, probe, lookup);
    InterleavingCounts(done, Selected(done, true, probe, lookup), Selected(done, false, probe, lookup));
  }

  /** Where a proxy that the run reaches ends up depends only on its probe: a
      200 answer naming its origin puts it in the active output and never in
      the dead one; a network error, another status or an unreadable body
      puts it in the dead output and never in the active one. */
  lemma RoutingByProbe(ps: seq<string>, probe: string -> Probe, lookup: Value -> Lookup, p: string)
    requires p in ps[..Reached(ps, probe, lookup)]
    ensures var done := ps[..Reached(ps, probe, lookup)];
      var r := probe(p);
      && (r.Response? && r.status == 200 && HasOrigin(r.body) ==>
            p in Selected(done, true, probe, lookup) && p !in Selected(done, false, probe, lookup))
      && (r.NetError? || (r.Response? && (r.status != 200 || r.body.None?)) ==>
            p in Selected(done, false, probe, lookup) && p !in Selected(done, true, probe, lookup))
  {
    var done := ps[..Reached(ps, probe, lookup)];
    SelectedMembers(done, true, probe, lookup, p);
    SelectedMembers(done, false, probe, lookup, p);
  }

  /** The classification oracle influences neither where a run stops nor
      which output any proxy goes to. */
  lemma {:induction false} LookupCannotChangeRun(ps: seq<string>, probe: string -> Probe,
                                                 lookup1: Value -> Lookup, lookup2: Value -> Lookup)
    ensures Reached(ps, probe, lookup1) == Reached(ps, probe, lookup2)
    ensures forall want :: Selected(ps, want, probe, lookup1) == Selected(ps, want, probe, lookup2)
    decreases |ps|
  {
    if ps != [] {
      LookupCannotChangeLiveness(probe(ps[0]), lookup1, lookup2);
      LookupCannotChangeLiveness(probe(ps[|ps| - 1]), lookup1, lookup2);
      LookupCannotChangeRun(ps[1..], probe, lookup1, lookup2);
      LookupCannotChangeRun(ps[..|ps| - 1], probe, lookup1, lookup2);
    }
  }

  /** Loading either output file, when it started empty, gives back exactly
      the proxies the run wrote to it, in order. */
  lemma OutputReloads(text: string, want: bool, probe: string -> Probe, lookup: Value -> Lookup)
    ensures var ps := LoadProxies(text);
      var written := Selected(ps[..Reached(ps, probe, lookup)], want, probe, lookup);
      LoadProxies(Concat(Records(written))) == written
  {
    var ps := LoadProxies(text);
    var written := Selected(ps[..Reached(ps, probe, lookup)], want, probe, lookup);
    forall k | 0 <= k < |written| ensures Clean(written[k]) {
      SelectedMembers(ps[..Reached(ps, probe, lookup)], want, probe, lookup, written[k]);
      var j :| 0 <= j < Reached(ps, probe, lookup) && ps[j] == written[k];
      LoadedClean(text, j);
    }
    ReloadRecords(written);
  }

  // ---------------------------------------------------------------------
  // The two output files
  // ---------------------------------------------------------------------

  /** The output files `aktif.txt` and `dead.txt`, each as the sequence of
      strings written to it; the file's text is their concatenation. */
  class ProxyFiles {
    var active: seq<string>
    var dead: seq<string>

    /** The files as they are before the run (append mode keeps what they
        already hold). */
    constructor (active0: seq<string>, dead0: seq<string>)
      ensures active == active0 && dead == dead0
    {
      active, dead := active0, dead0;
    }

    /** `save_proxy_to_file(proxy, is_active)`: append the proxy and a line
        break to the active file or to the dead file; the other is untouched. */
    method SaveProxyToFile(proxy: string, isActive: bool)
      modifies this
      ensures isActive ==> active == old(active) + [proxy + "\n"] && dead == old(dead)
      ensures !isActive ==> dead == old(dead) + [proxy + "\n"] && active == old(active)
    {
      if isActive {
        active := active + [proxy + "\n"];
      } else {
        dead := dead + [proxy + "\n"];
      }
    }

    /** `check_proxies` on a file holding `text`: the run stops at the first
        probe that raises, and each output gains, in input order, the
        proxies before that point that were routed to it. */
    method CheckProxies(text: string, probe: string -> Probe, lookup: Value -> Lookup)
      returns (outcome: RunOutcome)
      modifies this
      ensures var ps := LoadProxies(text);
        var n := Reached(ps, probe, lookup);
        && outcome == (if n == |ps| then Completed else Aborted(n))
        && active == old(active) + Records(Selected(ps[..n], true, probe, lookup))
        && dead == old(dead) + Records(Selected(ps[..n], false, probe, lookup))
    {
      var proxies := LoadProxies(text);
      outcome := CheckAll(proxies, probe, lookup);
    }

    /** The loop of `check_proxies` over the loaded proxies. */
    method CheckAll(proxies: seq<string>, probe: string -> Probe, lookup: Value -> Lookup)
      returns (outcome: RunOutcome)
      modifies this
      ensures var n := Reached(proxies, probe, lookup);
        && outcome == (if n == |proxies| then Completed else Aborted(n))
        && active == old(active) + Records(Selected(proxies[..n], true, probe, lookup))
        && dead == old(dead) + Records(Selected(proxies[..n], false, probe, lookup))
    {
      var i := 0;
      while i < |proxies|
        invariant 0 <= i <= |proxies|
        invariant forall j :: 0 <= j < i ==> !Verdict(proxies[j], probe, lookup).Raised?
        invariant active == old(active) + Records(Selected(proxies[..i], true, probe, lookup))
        invariant dead == old(dead) + Records(Selected(proxies[..i], false, probe, lookup))
      {
        var proxy := proxies[i];
        var result := Verdict(proxy, probe, lookup);
        if result.Raised? {
          ReachedIs(proxies, probe, lookup, i);
          outcome := Aborted(i);
          return;
        }
        assert proxies[..i + 1][..i] == proxies[..i];
        RecordsSnoc(Selected(proxies[..i], result.active, probe, lookup), proxy);
        SaveProxyToFile(proxy, result.active);
        i := i + 1;
      }
      assert proxies[..i] == proxies;
      ReachedIs(proxies, probe, lookup, i);
      outcome := Completed;
    }
  }

  /** Two runs append: each output holds the first run's records followed by
      the second run's, never overwritten. The runs may see different network
      answers, so each has its own oracles. */
  method CheckTwice(text: string, probe1: string -> Probe, lookup1: Value -> Lookup,
                    probe2: string -> Probe, lookup2: Value -> Lookup)
    returns (active: seq<string>, dead: seq<string>)
    ensures var ps := LoadProxies(text);
      var done1 := ps[..Reached(ps, probe1, lookup1)];
      var done2 := ps[..Reached(ps, probe2, lookup2)];
      && active == Records(Selected(done1, true, probe1, lookup1)) + Records(Selected(done2, true, probe2, lookup2))
      && dead == Records(Selected(done1, false, probe1, lookup1)) + Records(Selected(done2, false, probe2, lookup2))
  {
    ghost var ps := LoadProxies(text);
    ghost var done1 := ps[..Reached(ps, probe1, lookup1)];
    ghost var a, d := Records(Selected(done1, true, probe1, lookup1)), Records(Selected(done1, false, probe1, lookup1));
    var files := new ProxyFiles([], []);
    var _ := files.CheckProxies(text, probe1, lookup1);
    assert files.active == a && files.dead == d;
    var _ := files.CheckProxies(text, probe2, lookup2);
    active, dead := files.active, files.dead;
  }

  /** The input file of the example holds the one proxy. */
  lemma ExampleLoad(text: string)
    requires text == "http://1.2.3.4:8080\n"
    ensures LoadProxies(text) == ["http://1.2.3.4:8080"]
  {
    var p := "http://1.2.3.4:8080";
    assert Clean(p) by {
      assert NoEdgeSpace(p);
      assert '\n' !in p && '\r' !in p;
    }
    assert Concat(Records([p])) == text by {
      assert Records([p]) == [p + "\n"];
      assert Concat([p + "\n"]) == p + "\n";
    }
    ReloadRecords([p]);
  }

  /** A proxy whose probe answers 200 with origin 5.6.7.8, which the lookup
      places in "AS1234 Some ISP", is active and of type Datacenter, and is
      the one line written to the active output. */
  lemma ExampleRun(probe: string -> Probe, lookup: Value -> Lookup)
    requires probe("http://1.2.3.4:8080") == Response(200, Some(JObject(map["origin" := JString("5.6.7.8")])))
    requires lookup(JString("5.6.7.8")) == LookupBody(JObject(map["org" := JString("AS1234 Some ISP")]))
    ensures var ps := ["http://1.2.3.4:8080"];
      && Verdict(ps[0], probe, lookup) == Returned(true, Datacenter)
      && Reached(ps, probe, lookup) == 1
      && Records(Selected(ps, true, probe, lookup)) == ["http://1.2.3.4:8080\n"]
      && Selected(ps, false, probe, lookup) == []
  {
    var ps := ["http://1.2.3.4:8080"];
    assert OccursAt("AS", "AS1234 Some ISP", 0);
    assert GetProxyType(JString("5.6.7.8"), lookup) == Datacenter;
    assert ps[..0] == [] && ps[1..] == [];
    assert Selected(ps, true, probe, lookup) == ["http://1.2.3.4:8080"];
    var p := "http://1.2.3.4:8080";
    assert Records([p]) == [p + "\n"];
    assert p + "\n" == "http://1.2.3.4:8080\n";
  }
}
