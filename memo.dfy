/**
  The once-per-URL memo behind apkCache.get, as values: a map from URL to the
  stored result, and the sequence of requests it serves.
*/
module Memo {

  /**
    One call of apkCache.get for URL `u`: the stored result when `u` has one;
    otherwise `work`, the result the expansion produces, which is stored.
  */
  function Serve<R>(resps: map<string, R>, u: string, work: R): (R, map<string, R>)
  {
    if u in resps then (resps[u], resps) else (work, resps[u := work])
  }

  /** What serving a sequence of requests yields: the answers, the URLs whose work ran, the final map. */
  datatype Trace<R> = Trace(results: seq<R>, ran: seq<string>, resps: map<string, R>)

  /** Each request is a URL and the result its work would produce if it ran. */
  function Replay<R>(resps: map<string, R>, reqs: seq<(string, R)>): (t: Trace<R>)
    ensures |t.results| == |reqs|
    ensures |t.ran| <= |reqs|
    decreases |reqs|
  {
    if reqs == [] then Trace([], [], resps)
    else
      var (r, resps1) := Serve(resps, reqs[0].0, reqs[0].1);
      var rest := Replay(resps1, reqs[1..]);
      Trace([r] + rest.results, (if reqs[0].0 in resps then [] else [reqs[0].0]) + rest.ran, rest.resps)
  }

  function Urls<R>(reqs: seq<(string, R)>): set<string>
  {
    set i | 0 <= i < |reqs| :: reqs[i].0
  }

  predicate NoDuplicates(s: seq<string>)
  {
    forall i, j :: 0 <= i < j < |s| ==> s[i] != s[j]
  }

  /** The position of the first request for `u`. */
  function FirstIndex<R>(reqs: seq<(string, R)>, u: string): (k: nat)
    requires u in Urls(reqs)
    ensures k < |reqs| && reqs[k].0 == u
    ensures forall i :: 0 <= i < k ==> reqs[i].0 != u
  {
    if reqs[0].0 == u then 0
    else
      assert u in Urls(reqs[1..]) by {
        var i :| 0 <= i < |reqs| && reqs[i].0 == u;
        assert reqs[1..][i - 1].0 == u;
      }
      1 + FirstIndex(reqs[1..], u)
  }

  lemma UrlsCons<R>(reqs: seq<(string, R)>)
    requires reqs != []
    ensures Urls(reqs) == {reqs[0].0} + Urls(reqs[1..])
  {
    forall u | u in Urls(reqs) ensures u in {reqs[0].0} + Urls(reqs[1..]) {
      var i :| 0 <= i < |reqs| && reqs[i].0 == u;
      if i > 0 {
        assert reqs[1..][i - 1].0 == u;
      }
    }
    forall u | u in Urls(reqs[1..]) ensures u in Urls(reqs) {
      var i :| 0 <= i < |reqs[1..]| && reqs[1..][i].0 == u;
      assert reqs[i + 1].0 == u;
    }
  }

  /**
    The work for a URL runs at most once: exactly the URLs not stored beforehand
    run, each once, and afterwards every requested URL is stored.
  */
  lemma ReplayRunsOnce<R>(resps: map<string, R>, reqs: seq<(string, R)>)
    ensures var t := Replay(resps, reqs);
      && NoDuplicates(t.ran)
      && (forall u :: u in t.ran <==> u in Urls(reqs) && u !in resps)
      && t.resps.Keys == resps.Keys + Urls(reqs)
  {
    ReplayStores(resps, reqs);
    ReplayRan(resps, reqs);
    ReplayRanDistinct(resps, reqs);
  }

  /** Afterwards the stored URLs are those stored before and those requested. */
  lemma {:induction false} ReplayStores<R>(resps: map<string, R>, reqs: seq<(string, R)>)
    ensures Replay(resps, reqs).resps.Keys == resps.Keys + Urls(reqs)
    decreases |reqs|
  {
    if reqs != [] {
      var u := reqs[0].0;
      var (r, resps1) := Serve(resps, u, reqs[0].1);
      ReplayStores(resps1, reqs[1..]);
      UrlsCons(reqs);
      assert resps1.Keys == resps.Keys + {u};
    }
  }

  /** The work runs for exactly the requested URLs that were not stored. */
  lemma {:induction false} ReplayRan<R>(resps: map<string, R>, reqs: seq<(string, R)>)
    ensures forall u :: u in Replay(resps, reqs).ran <==> u in Urls(reqs) && u !in resps
    decreases |reqs|
  {
    if reqs != [] {
      var u := reqs[0].0;
      var (r, resps1) := Serve(resps, u, reqs[0].1);
      ReplayRan(resps1, reqs[1..]);
      UrlsCons(reqs);
      assert resps1.Keys == resps.Keys + {u};
    }
  }

  /** No URL's work runs twice. */
  lemma {:induction false} ReplayRanDistinct<R>(resps: map<string, R>, reqs: seq<(string, R)>)
    ensures NoDuplicates(Replay(resps, reqs).ran)
    decreases |reqs|
  {
    if reqs != [] {
      var u := reqs[0].0;
      var (r, resps1) := Serve(resps, u, reqs[0].1);
      var rest := Replay(resps1, reqs[1..]);
      ReplayRanDistinct(resps1, reqs[1..]);
      if u !in resps {
        ReplayRan(resps1, reqs[1..]);
        var ran := [u] + rest.ran;
        assert ran == Replay(resps, reqs).ran;
        forall i, j | 0 <= i < j < |ran| ensures ran[i] != ran[j] {
          assert ran[j] == rest.ran[j - 1];
          if i > 0 {
            assert ran[i] == rest.ran[i - 1];
          } else {
            assert ran[j] in rest.ran;
          }
        }
      } else {
        assert Replay(resps, reqs).ran == rest.ran;
      }
    }
  }

  /**
    Every answer for a URL is the stored result, or else what the work of the
    first request for that URL produced.
  */
  lemma {:induction false} ReplayAnswer<R>(resps: map<string, R>, reqs: seq<(string, R)>, i: nat)
    requires i < |reqs|
    ensures reqs[i].0 in Urls(reqs)
    ensures Replay(resps, reqs).results[i]
         == if reqs[i].0 in resps then resps[reqs[i].0] else reqs[FirstIndex(reqs, reqs[i].0)].1
    decreases i
  {
    var u := reqs[i].0;
    assert u in Urls(reqs);
    if i > 0 {
      var (r, resps1) := Serve(resps, reqs[0].0, reqs[0].1);
      ReplayAnswer(resps1, reqs[1..], i - 1);
      assert reqs[1..][i - 1].0 == u;
      if u !in resps && u != reqs[0].0 {
        assert FirstIndex(reqs, u) == 1 + FirstIndex(reqs[1..], u);
      }
    }
  }

  /** Two requests for the same URL get the same answer, a stored error included. */
  lemma SameUrlSameAnswer<R>(resps: map<string, R>, reqs: seq<(string, R)>, i: nat, j: nat)
    requires i < |reqs| && j < |reqs| && reqs[i].0 == reqs[j].0
    ensures Replay(resps, reqs).results[i] == Replay(resps, reqs).results[j]
  {
    ReplayAnswer(resps, reqs, i);
    ReplayAnswer(resps, reqs, j);
  }
}
