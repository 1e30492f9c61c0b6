/** The entry point `main` (check_webservers.py:29-53): the argument-count
    gate, then loading, probing and aggregation, then the choice of severity,
    exit code and the one line printed. Printing and `sys.exit` are replaced
    by returning the verdict as a value. */
module Report {
  import opened Text
  import opened Loader
  import opened Probe

  datatype Option<T> = None | Some(value: T)

  /** The four tiers of the monitoring-plugin convention. */
  datatype Severity = Ok | Warning | Critical | Unknown

  /** The process exit code of each tier: 0, 1, 2 and 3. */
  function ExitCode(severity: Severity): (code: int)
    ensures 0 <= code <= 3
  {
    match severity
    case Ok => 0
    case Warning => 1
    case Critical => 2
    case Unknown => 3
  }

  /** How a scheduler reads an exit code back as a tier. */
  function SeverityOfCode(code: int): Option<Severity> {
    if code == 0 then Some(Ok)
    else if code == 1 then Some(Warning)
    else if code == 2 then Some(Critical)
    else if code == 3 then Some(Unknown)
    else None
  }

  /** Exit codes and tiers correspond one to one. */
  lemma ExitCodeRoundTrip(severity: Severity, code: int)
    ensures SeverityOfCode(ExitCode(severity)) == Some(severity)
    ensures SeverityOfCode(code) == Some(severity) ==> ExitCode(severity) == code
  {
  }

  /** What opens the printed line of each tier: its name and a dash. */
  function Prefix(severity: Severity): string {
    match severity
    case Ok => "OK - "
    case Warning => "WARNING - "
    case Critical => "CRITICAL - "
    case Unknown => "UNKNOWN - "
  }

  /** What the plugin prints and the exit code it stops with. */
  datatype Verdict = Verdict(severity: Severity, message: string) {
    function Code(): int {
      ExitCode(severity)
    }
  }

  /** The rest of the usage line printed on a wrong argument count,
      character for character (the closing '>' is missing in the program
      too). */
  const UsageBody: string := "Usage: check_webservers.py <server_list.txt."

  /** Whether `s` begins with `prefix`. */
  predicate StartsWith(s: string, prefix: string) {
    |prefix| <= |s| && s[..|prefix|] == prefix
  }

  lemma StartsWithAppend(s: string, prefix: string, more: string)
    requires StartsWith(s, prefix)
    ensures StartsWith(s + more, prefix)
  {
  }

  /** The tier named at the head of a printed line, as a reader of the line
      would recover it. */
  function SeverityOfMessage(message: string): Option<Severity> {
    if StartsWith(message, "OK - ") then Some(Ok)
    else if StartsWith(message, "WARNING - ") then Some(Warning)
    else if StartsWith(message, "CRITICAL - ") then Some(Critical)
    else if StartsWith(message, "UNKNOWN - ") then Some(Unknown)
    else None
  }

  /** Reading a printed line back gives the tier it was printed for,
      whatever follows the prefix. */
  lemma PrefixReadsBack(severity: Severity, message: string)
    requires StartsWith(message, Prefix(severity))
    ensures SeverityOfMessage(message) == Some(severity)
  {
    var p := Prefix(severity);
    assert message[0] == p[0];
    if severity == Critical || severity == Unknown {
      assert !StartsWith(message, "WARNING - ");
    }
    if severity == Unknown {
      assert !StartsWith(message, "CRITICAL - ");
    }
  }

  /** The tail of the WARNING and CRITICAL lines, before the list. */
  const OfflineText: string := " web servers are offline: "

  /** The `if/elif/else` of `main`: CRITICAL when `down == total` (an empty
      target list included, since then both are 0), otherwise WARNING when
      anything is down, otherwise OK. Each line opens with its tier's
      prefix, then states the counts in decimal and, unless OK, the
      `", "`-join of the offline list. */
  function Summary(down: nat, total: nat, offline: seq<string>): (v: Verdict)
    ensures v.severity == Critical <==> down == total
    ensures v.severity == Warning <==> down != total && down > 0
    ensures v.severity == Ok <==> total > 0 && down == 0
    ensures SeverityOfMessage(v.message) == Some(v.severity)
    ensures v.severity == Critical ==>
            v.message == Prefix(Critical) + "ALL " + NatToString(total) + OfflineText + Join(offline, ", ")
    ensures v.severity == Warning ==>
            v.message == Prefix(Warning) + NatToString(down) + "/" + NatToString(total) + OfflineText + Join(offline, ", ")
    ensures v.severity == Ok ==>
            v.message == Prefix(Ok) + "All " + NatToString(total) + " web servers are online"
  {
    if down == total then
      var p := Prefix(Critical);
      var a := p + "ALL ";
      var b := a + NatToString(total);
      var c := b + OfflineText;
      assert StartsWith(c, p) by {
        StartsWithAppend(p, p, "ALL ");
        StartsWithAppend(a, p, NatToString(total));
        StartsWithAppend(b, p, OfflineText);
      }
      StartsWithAppend(c, p, Join(offline, ", "));
      PrefixReadsBack(Critical, c + Join(offline, ", "));
      Verdict(Critical, c + Join(offline, ", "))
    else if down > 0 then
      var p := Prefix(Warning);
      var a := p + NatToString(down);
      var b := a + "/";
      var c := b + NatToString(total);
      var d := c + OfflineText;
      assert StartsWith(d, p) by {
        StartsWithAppend(p, p, NatToString(down));
        StartsWithAppend(a, p, "/");
        StartsWithAppend(b, p, NatToString(total));
        StartsWithAppend(c, p, OfflineText);
      }
      StartsWithAppend(d, p, Join(offline, ", "));
      PrefixReadsBack(Warning, d + Join(offline, ", "));
      Verdict(Warning, d + Join(offline, ", "))
    else
      var p := Prefix(Ok);
      var a := p + "All ";
      var b := a + NatToString(total);
      assert StartsWith(b, p) by {
        StartsWithAppend(p, p, "All ");
        StartsWithAppend(a, p, NatToString(total));
      }
      StartsWithAppend(b, p, " web servers are online");
      PrefixReadsBack(Ok, b + " web servers are online");
      Verdict(Ok, b + " web servers are online")
  }

  /** Read with `down <= total`, as aggregation guarantees, the three tiers
      are the three rows of the plugin's table: OK when nothing of a
      non-empty list is down, WARNING when some but not all are, CRITICAL
      when all are, which includes the empty list. */
  lemma SummaryTiers(down: nat, total: nat, offline: seq<string>)
    requires down <= total
    ensures Summary(down, total, offline).severity == Ok <==> down == 0 && 0 < total
    ensures Summary(down, total, offline).severity == Warning <==> 0 < down < total
    ensures Summary(down, total, offline).severity == Critical <==> down == total
  {
  }

  /** `main`: with an argument count other than two (the script and one
      path) it stops at UNKNOWN before any file is read or any target is
      probed; otherwise it loads the targets of the file whose text is
      `text`, probes them with the given outcomes, and summarises. */
  function Run(argv: seq<string>, text: string, outcomes: seq<Outcome>): (v: Verdict)
    requires |argv| == 2 ==> |outcomes| == |Servers(text)|
    ensures |argv| != 2 ==> v == Verdict(Unknown, Prefix(Unknown) + UsageBody)
    ensures |argv| == 2 ==> v.severity != Unknown
    ensures 0 <= v.Code() <= 3
    ensures SeverityOfMessage(v.message) == Some(v.severity)
  {
    if |argv| != 2 then
      StartsWithAppend(Prefix(Unknown), Prefix(Unknown), UsageBody);
      PrefixReadsBack(Unknown, Prefix(Unknown) + UsageBody);
      Verdict(Unknown, Prefix(Unknown) + UsageBody)
    else
      var servers := Servers(text);
      var offline := Offline(servers, outcomes);
      Summary(|offline|, |servers|, offline)
  }

  /** Every verdict of a run is printed under its own label, so a scheduler
      reading the printed line and one reading the exit code agree on the
      tier. */
  lemma RunReadsBack(argv: seq<string>, text: string, outcomes: seq<Outcome>)
    requires |argv| == 2 ==> |outcomes| == |Servers(text)|
    ensures SeverityOfCode(Run(argv, text, outcomes).Code()) ==
            SeverityOfMessage(Run(argv, text, outcomes).message)
  {
  }

  /** The tier of a run in terms of the probes: OK exactly when the list is
      non-empty and every probe is up, CRITICAL exactly when every probe is
      down (vacuously so for an empty list), WARNING exactly when some probe
      is up and some is down. */
  lemma RunTiers(argv: seq<string>, text: string, outcomes: seq<Outcome>)
    requires |argv| == 2 && |outcomes| == |Servers(text)|
    ensures Run(argv, text, outcomes).severity == Ok <==>
            |outcomes| > 0 && forall i :: 0 <= i < |outcomes| ==> CheckServerStatus(outcomes[i])
    ensures Run(argv, text, outcomes).severity == Critical <==>
            forall i :: 0 <= i < |outcomes| ==> !CheckServerStatus(outcomes[i])
    ensures Run(argv, text, outcomes).severity == Warning <==>
            (exists i :: 0 <= i < |outcomes| && CheckServerStatus(outcomes[i])) &&
            (exists i :: 0 <= i < |outcomes| && !CheckServerStatus(outcomes[i]))
  {
    var servers := Servers(text);
    OfflineEmptyIff(servers, outcomes);
    OfflineFullIff(servers, outcomes);
    SummaryTiers(|Offline(servers, outcomes)|, |servers|, Offline(servers, outcomes));
  }

  /** The line a run prints, in terms of the probes: the count after `ALL`
      and after the slash is the number of targets probed, the count before
      the slash is the number found down, and the list after the colon is
      exactly the targets found down, in file order. */
  lemma RunLine(argv: seq<string>, text: string, outcomes: seq<Outcome>)
    requires |argv| == 2 && |outcomes| == |Servers(text)|
    ensures Run(argv, text, outcomes).severity == Critical ==>
            Run(argv, text, outcomes).message ==
            Prefix(Critical) + "ALL " + NatToString(|outcomes|) + OfflineText +
            Join(Offline(Servers(text), outcomes), ", ")
    ensures Run(argv, text, outcomes).severity == Warning ==>
            Run(argv, text, outcomes).message ==
            Prefix(Warning) + NatToString(CountDown(outcomes)) + "/" + NatToString(|outcomes|) + OfflineText +
            Join(Offline(Servers(text), outcomes), ", ")
    ensures Run(argv, text, outcomes).severity == Ok ==>
            Run(argv, text, outcomes).message ==
            Prefix(Ok) + "All " + NatToString(|outcomes|) + " web servers are online"
  {
    OfflineCount(Servers(text), outcomes);
  }

  /** Two targets, the first answering 200 and the second timing out:
      WARNING, exit code 1, naming the second. */
  lemma ScenarioOneOfTwoDown(argv: seq<string>, a: string, b: string)
    requires |argv| == 2
    requires IsTargetName(a) && IsTargetName(b)
    ensures |Servers(a + "\n" + b + "\n")| == 2
    ensures Run(argv, a + "\n" + b + "\n", [Response(200), Failure]) ==
            Verdict(Warning, "WARNING - " + "1" + "/" + "2" + " web servers are offline: " + b)
  {
    var names := [a, b];
    assert a + "\n" + b + "\n" == Seqs.Flatten(Terminate(names)) by {
      var lines := Terminate(names);
      assert lines == [a + "\n", b + "\n"];
      assert lines[1..] == [b + "\n"];
      assert lines[1..][1..] == [];
      assert Seqs.Flatten(lines[1..]) == b + "\n";
    }
    ServersOfListing(names);
    var offline := Offline(names, [Response(200), Failure]);
    assert offline == [b] by {
      var outcomes := [Response(200), Failure];
      assert names[1..] == [b] && outcomes[1..] == [Failure];
      assert Offline([b], [Failure]) == [b] by {
        assert [b][1..] == [];
        assert [Failure][1..] == [];
      }
    }
    assert NatToString(1) == "1";
    assert NatToString(2) == "2";
  }

  /** One target answering with any status but 200 (404, say): that is
      simply down, so the whole one-element list is offline and the tier is
      CRITICAL. */
  lemma ScenarioNotFound(argv: seq<string>, a: string, status: int)
    requires |argv| == 2
    requires IsTargetName(a) && status != 200
    ensures |Servers(a + "\n")| == 1
    ensures Run(argv, a + "\n", [Response(status)]) ==
            Verdict(Critical, "CRITICAL - " + "ALL " + "1" + " web servers are offline: " + a)
  {
    var names := [a];
    assert a + "\n" == Seqs.Flatten(Terminate(names)) by {
      assert Terminate(names)[1..] == [];
    }
    ServersOfListing(names);
    assert Offline(names, [Response(status)]) == names by {
      assert names[1..] == [];
    }
    assert NatToString(1) == "1";
  }

  /** An empty file: no targets, and the branch order makes that CRITICAL
      with nothing after the colon rather than OK. */
  lemma ScenarioEmptyFile(argv: seq<string>)
    requires |argv| == 2
    ensures Run(argv, "", []) ==
            Verdict(Critical, "CRITICAL - " + "ALL " + "0" + " web servers are offline: " + "")
  {
  }

  /** Called with no path, or with more than one, the plugin says how to use
      it and exits 3 whatever the file or the network would have given. */
  lemma ScenarioUsage(argv: seq<string>, text: string, outcomes: seq<Outcome>)
    requires |argv| != 2
    ensures Run(argv, text, outcomes) ==
            Verdict(Unknown, "UNKNOWN - " + "Usage: check_webservers.py <server_list.txt.")
    ensures Run(argv, text, outcomes).Code() == 3
  {
  }
}
