/** The probe and the aggregation loop: `check_server_status`
    (check_webservers.py:22-27) and the `for server in servers` loop of
    `main` (check_webservers.py:38-43). The HTTP request itself is replaced by
    its outcome, supplied from outside: one outcome per target, in the order
    the targets are probed. */
module Probe {
  import opened Seqs

  /** What a single GET request came back with: a response carrying an HTTP
      status code, or no response at all (timeout, connection or DNS error,
      TLS error, or any other exception raised by the request). */
  datatype Outcome = Response(status: int) | Failure

  /** `check_server_status`: a target is up exactly when it answered with
      status 200; every other status and every failure count as down. */
  function CheckServerStatus(outcome: Outcome): (up: bool)
    ensures up <==> outcome == Response(200)
  {
    match outcome
    case Response(status) => status == 200
    case Failure => false
  }

  /** The targets found down, in probe order. */
  function Offline(servers: seq<string>, outcomes: seq<Outcome>): (offline: seq<string>)
    requires |outcomes| == |servers|
    ensures |offline| <= |servers|
    ensures forall x :: x in offline ==> x in servers
  {
    if |servers| == 0 then []
    else
      var rest := Offline(servers[1..], outcomes[1..]);
      assert forall x :: x in rest ==> x in servers by {
        assert forall x :: x in servers[1..] ==> x in servers;
      }
      (if CheckServerStatus(outcomes[0]) then [] else [servers[0]]) + rest
  }

  /** How many outcomes are down. */
  function CountDown(outcomes: seq<Outcome>): nat {
    if |outcomes| == 0 then 0
    else (if CheckServerStatus(outcomes[0]) then 0 else 1) + CountDown(outcomes[1..])
  }

  /** `down == len(offline)` is the number of failed probes. */
  lemma {:induction false} OfflineCount(servers: seq<string>, outcomes: seq<Outcome>)
    requires |outcomes| == |servers|
    ensures |Offline(servers, outcomes)| == CountDown(outcomes)
    decreases |servers|
  {
    if |servers| > 0 {
      OfflineCount(servers[1..], outcomes[1..]);
    }
  }

  /** Aggregation works target by target: splitting the target list splits
      the offline list the same way. */
  lemma {:induction false} OfflineAppend(a: seq<string>, oa: seq<Outcome>, b: seq<string>, ob: seq<Outcome>)
    requires |oa| == |a| && |ob| == |b|
    ensures Offline(a + b, oa + ob) == Offline(a, oa) + Offline(b, ob)
    decreases |a|
  {
    if |a| == 0 {
      assert a + b == b;
      assert oa + ob == ob;
    } else {
      assert (a + b)[0] == a[0];
      assert (oa + ob)[0] == oa[0];
      assert (a + b)[1..] == a[1..] + b;
      assert (oa + ob)[1..] == oa[1..] + ob;
      OfflineAppend(a[1..], oa[1..], b, ob);
    }
  }

  /** The offline list keeps the order of the target list. */
  lemma {:induction false} OfflineIsSubsequence(servers: seq<string>, outcomes: seq<Outcome>)
    requires |outcomes| == |servers|
    ensures IsSubsequence(Offline(servers, outcomes), servers)
    decreases |servers|
  {
    if |servers| > 0 {
      OfflineIsSubsequence(servers[1..], outcomes[1..]);
      var offline := Offline(servers, outcomes);
      if CheckServerStatus(outcomes[0]) {
        assert offline == Offline(servers[1..], outcomes[1..]);
        if |offline| > 0 {
          assert IsSubsequence(offline, servers[1..]);
        }
      } else {
        assert offline[0] == servers[0];
        assert offline[1..] == Offline(servers[1..], outcomes[1..]);
      }
    }
  }

  /** A target name is in the offline list exactly when some probe of that
      name came back down. */
  lemma {:induction false} OfflineMembership(servers: seq<string>, outcomes: seq<Outcome>, x: string)
    requires |outcomes| == |servers|
    ensures x in Offline(servers, outcomes) <==>
            exists i :: 0 <= i < |servers| && servers[i] == x && !CheckServerStatus(outcomes[i])
    decreases |servers|
  {
    if |servers| > 0 {
      OfflineMembership(servers[1..], outcomes[1..], x);
      if exists i :: 0 <= i < |servers| && servers[i] == x && !CheckServerStatus(outcomes[i]) {
        var i :| 0 <= i < |servers| && servers[i] == x && !CheckServerStatus(outcomes[i]);
        if i > 0 {
          assert servers[1..][i - 1] == x && !CheckServerStatus(outcomes[1..][i - 1]);
        }
      }
      if exists i :: 0 <= i < |servers| - 1 && servers[1..][i] == x && !CheckServerStatus(outcomes[1..][i]) {
        var i :| 0 <= i < |servers| - 1 && servers[1..][i] == x && !CheckServerStatus(outcomes[1..][i]);
        assert servers[i + 1] == x && !CheckServerStatus(outcomes[i + 1]);
      }
    }
  }

  /** Nobody is offline exactly when every probe came back up. */
  lemma {:induction false} OfflineEmptyIff(servers: seq<string>, outcomes: seq<Outcome>)
    requires |outcomes| == |servers|
    ensures |Offline(servers, outcomes)| == 0 <==>
            forall i :: 0 <= i < |outcomes| ==> CheckServerStatus(outcomes[i])
    decreases |servers|
  {
    if |servers| > 0 {
      OfflineEmptyIff(servers[1..], outcomes[1..]);
      assert forall i :: 1 <= i < |outcomes| ==> outcomes[i] == outcomes[1..][i - 1];
    }
  }

  /** Everybody is offline exactly when every probe came back down; the
      offline list is then the target list itself. */
  lemma {:induction false} OfflineFullIff(servers: seq<string>, outcomes: seq<Outcome>)
    requires |outcomes| == |servers|
    ensures |Offline(servers, outcomes)| == |servers| <==>
            forall i :: 0 <= i < |outcomes| ==> !CheckServerStatus(outcomes[i])
    ensures |Offline(servers, outcomes)| == |servers| ==> Offline(servers, outcomes) == servers
    decreases |servers|
  {
    if |servers| > 0 {
      OfflineFullIff(servers[1..], outcomes[1..]);
      assert forall i :: 1 <= i < |outcomes| ==> outcomes[i] == outcomes[1..][i - 1];
      if |Offline(servers, outcomes)| == |servers| {
        assert !CheckServerStatus(outcomes[0]);
        assert servers == [servers[0]] + servers[1..];
      }
    }
  }

  /** The loop of `main`, probing in order and appending each target that is
      down. */
  method ProbeAll(servers: seq<string>, outcomes: seq<Outcome>) returns (offline: seq<string>)
    requires |outcomes| == |servers|
    ensures offline == Offline(servers, outcomes)
  {
    offline := [];
    var n := 0;
    while n < |servers|
      invariant n <= |servers|
      invariant offline == Offline(servers[..n], outcomes[..n])
    {
      var server := servers[n];
      var outcome := outcomes[n];
      ghost var doneS := servers[..n];
      ghost var doneO := outcomes[..n];
      OfflineAppend(doneS, doneO, [server], [outcome]);
      assert servers[..n + 1] == doneS + [server];
      assert outcomes[..n + 1] == doneO + [outcome];
      assert Offline([server], [outcome]) == (if CheckServerStatus(outcome) then [] else [server]) by {
        assert [server][1..] == [];
      }
      if !CheckServerStatus(outcome) {
        offline := offline + [server];
      }
      n := n + 1;
    }
    assert servers[..n] == servers;
    assert outcomes[..n] == outcomes;
  }
}
