# check_webservers — a Dafny model

`check_webservers.py` is a Nagios-style monitoring plugin. It takes the path of
a text file that lists web server URLs, one per line. It sends one HTTP GET
request to each URL. It prints one summary line and exits with the
monitoring-plugin code for the result: 0 OK, 1 WARNING, 2 CRITICAL,
3 UNKNOWN.

Once file and network I/O are taken out, three pieces of pure logic remain,
and this project models and proves all three:

- **Loading the target list** (`read_servers`). The file is given by its
  text. `Loader.SplitLines` yields the lines the way Python iterates a text
  file, each with its `'\n'` still on. `Loader.CleanLines` strips each line
  and keeps the non-blank ones, in order.
- **Probing and aggregation** (`check_server_status` and the loop in
  `main`). A request's result is a `Probe.Outcome`: either `Response(status)`
  or `Failure` (timeout, connection error, any exception). A target is up
  exactly when the outcome is `Response(200)`. `Probe.Offline` and the loop
  `Probe.ProbeAll` collect the targets that are down, in probe order.
- **Severity and report** (the argument check and the `if/elif/else` in
  `main`). `Report.Summary` picks the tier and builds the printed line.
  `Report.Run` is the whole of `main`: the argument-count gate, then
  loading, probing and summarising. It returns the tier and the line as a
  `Verdict` value instead of printing and exiting.

The branch order is kept exactly as written. `down == total` is tested first,
so an empty target list (`0 == 0`) is reported as
`CRITICAL - ALL 0 web servers are offline: ` and not as OK. Read as a
severity table, CRITICAL would mean "all of a non-empty list is down". The
code has no `total > 0` guard, and the model follows the code. The usage line is also
kept verbatim, including its missing `>`:
`UNKNOWN - Usage: check_webservers.py <server_list.txt.`

Modules: `Text` (whitespace, `strip`, `join`, decimal rendering), `Seqs`
(subsequence, flatten), `Loader`, `Probe`, `Report`.

## Model

| member | source | states |
|---|---|---|
| Text.Strip | check_webservers.py:18 | `line.strip()` returns a string that neither starts nor ends with whitespace, and is no longer than the line |
| Text.StripIsSlice | check_webservers.py:18 | the stripped line is a contiguous slice of the line, with only whitespace cut off on either side |
| Text.StripUnique | check_webservers.py:18 | a trimmed core wrapped in any whitespace strips back to exactly that core, so what `strip` returns is uniquely determined |
| Text.StripIdempotent | check_webservers.py:18 | stripping an already stripped line changes nothing |
| Text.StripEmptyIff | check_webservers.py:18 | `if line.strip()` is false exactly for lines made only of whitespace, the empty line included |
| Text.Join | check_webservers.py:46 | `", ".join` of no names is the empty string, and of one name is that name |
| Text.JoinAppend | check_webservers.py:46 | joining two non-empty lists one after the other gives the two joins with one separator between them |
| Text.JoinLength | check_webservers.py:49 | a join is as long as all its names plus one separator between each neighbouring pair |
| Text.NatToString | check_webservers.py:46 | the `{total}` / `{down}` rendering is non-empty, made of decimal digits, with no leading zero except for 0 itself |
| Text.NatToStringRoundTrip | check_webservers.py:49 | reading the rendered digits back gives the count; as `Report.Summary` prints the counts through this rendering, the numbers in the printed line read back exactly |
| Loader.SplitLines | check_webservers.py:17-18 | iterating the file yields non-empty lines, each with a `'\n'` only as its last character, all but the last ending in `'\n'`, and together they spell out the file exactly |
| Loader.SplitLinesOfFlatten | check_webservers.py:17-18 | the converse: well-formed lines written out one after another iterate back into exactly those lines |
| Loader.CleanLines | check_webservers.py:18 | every target the loader returns is non-empty and has no leading or trailing whitespace, and there are no more targets than lines |
| Loader.CleanLinesAppend | check_webservers.py:18 | loading works line by line: the targets of two pieces of a file are the first piece's targets followed by the second's |
| Loader.CleanLinesIsSubsequence | check_webservers.py:18 | the targets keep the file's order: they are a subsequence of the stripped lines |
| Loader.CleanLinesMembership | check_webservers.py:18 | a string is a target exactly when it is non-empty and some line strips to it, so no whitespace-only line produces a target |
| Loader.BlankLineDropped | check_webservers.py:18 | adding a blank or whitespace-only line to a file adds no target |
| Loader.Servers | check_webservers.py:16-18 | `read_servers` on a file's text: every target is non-empty with no leading or trailing whitespace, and there are no more targets than the file has lines |
| Loader.StripDropsNewline | check_webservers.py:17-18 | stripping a line whose only `'\n'` is its terminator leaves no `'\n'` in the result |
| Loader.ServersHoldNoNewline | check_webservers.py:16-18 | no target holds a `'\n'`: each comes from within one line of the file |
| Loader.ReadServers | check_webservers.py:16-18 | the comprehension written as a loop returns exactly the cleaned lines |
| Loader.ServersOfListing | check_webservers.py:16-18 | a file listing trimmed names, one per line, loads to exactly those names in order |
| Loader.ExampleFile | check_webservers.py:16-18 | the file `"a\n\nb \n  \nc\n"` loads to `["a", "b", "c"]` |
| Probe.CheckServerStatus | check_webservers.py:22-27 | a target is up exactly when the request answered with status 200; every other status and every failure is down |
| Probe.Offline | check_webservers.py:38-43 | the offline list is no longer than the target list, and every offline entry is one of the targets |
| Probe.OfflineCount | check_webservers.py:38-43 | `down`, the length of the offline list, is the number of probes that came back down |
| Probe.OfflineAppend | check_webservers.py:38-41 | splitting the target list splits the offline list the same way, so each target is judged on its own outcome |
| Probe.OfflineIsSubsequence | check_webservers.py:38-41 | the offline list keeps the order of the target list |
| Probe.OfflineMembership | check_webservers.py:38-41 | a name is offline exactly when some probe of that name came back down |
| Probe.OfflineEmptyIff | check_webservers.py:38-43 | nobody is offline exactly when every probe is up |
| Probe.OfflineFullIff | check_webservers.py:38-43 | everybody is offline exactly when every probe is down, and the offline list is then the whole target list |
| Probe.ProbeAll | check_webservers.py:38-41 | the probing loop that appends each down target builds exactly the offline list |
| Report.ExitCode | check_webservers.py:31-53 | every tier's exit code is one of 0, 1, 2, 3 |
| Report.ExitCodeRoundTrip | check_webservers.py:31-53 | exit codes and tiers correspond one to one |
| Report.PrefixReadsBack | check_webservers.py:32-52 | a line that opens with a tier's prefix is read back as that tier, whatever follows |
| Report.Summary | check_webservers.py:45-53 | CRITICAL exactly when `down == total`, WARNING exactly when `down != total` and `down > 0`, OK exactly when `down == 0 < total`; the printed line is `CRITICAL - ALL {total} web servers are offline: {list}`, `WARNING - {down}/{total} web servers are offline: {list}` or `OK - All {total} web servers are online`, with the counts in decimal and the list `", "`-joined, and it reads back as its tier |
| Report.SummaryTiers | check_webservers.py:45-53 | with `down <= total`: OK iff `down == 0 < total`, WARNING iff `0 < down < total`, CRITICAL iff `down == total`, the empty list included |
| Report.Run | check_webservers.py:29-53 | a wrong argument count gives UNKNOWN with the usage line whatever the file and the network hold; otherwise the tier is never UNKNOWN; the exit code is in 0..3 and the line opens with its tier's prefix |
| Report.RunReadsBack | check_webservers.py:31-53 | the tier read from the exit code and the tier read from the printed line are the same |
| Report.RunTiers | check_webservers.py:38-53 | with one path given: OK iff the list is non-empty and every probe is up, CRITICAL iff every probe is down (an empty list included), WARNING iff some probe is up and some is down |
| Report.RunLine | check_webservers.py:38-53 | the line of a run with one path given: `ALL {n}` and `/{n}` are the number of targets probed, the count before the slash is the number of probes that came back down, and the list after the colon is exactly the targets found down, in file order; OK prints `All {n} web servers are online` |
| Report.ScenarioOneOfTwoDown | check_webservers.py:38-50 | two targets, the first answering 200 and the second timing out, give `WARNING - 1/2 web servers are offline: <second>` |
| Report.ScenarioNotFound | check_webservers.py:22-47 | one target answering any status other than 200 (404, say) gives `CRITICAL - ALL 1 web servers are offline: <target>` |
| Report.ScenarioEmptyFile | check_webservers.py:42-47 | an empty file gives `CRITICAL - ALL 0 web servers are offline: ` |
| Report.ScenarioUsage | check_webservers.py:31-33 | a wrong argument count gives exit code 3 and the usage line verbatim |

## Left out

- The HTTP request (`requests.get`) and its 3-second timeout are not modelled. They are a foreign library call and network I/O. Each request's result is an input to `Report.Run` instead: one `Probe.Outcome` per target, in probe order.
- Opening the file, and what happens when it is missing or unreadable, are not modelled. That is file I/O, and the program has no handling for it: the exception is uncaught, so Python prints a traceback instead of a summary line and exits with status 1, which a monitoring scheduler reads as WARNING. `Report.Run` takes the file's text directly, so the path in `argv[1]` is not looked at.
- Python's universal-newline translation is not modelled. A `'\r'` on its own does not end a line in `Loader.SplitLines`. A `"\r\n"` ending still gives the same target, because `strip` removes the `'\r'`.
- Text.IsWhitespace: only the ASCII characters `str.strip()` removes are covered (9–13, 28–31 and the space). Non-ASCII whitespace such as U+0085, U+00A0 and U+2000–U+200A is not.
- `print` and `sys.exit` are not modelled. The printed line and the tier (and so the exit code) are returned as a `Report.Verdict`.
- Timing is not modelled: the sequential probing and its worst case of `total × timeout` cannot be expressed here.
- Report.ScenarioOneOfTwoDown and Report.ScenarioNotFound are stated for any well-formed target names, not for the literal URLs `http://a.example` and `http://b.example`. The expected lines are written as concatenations of the format string's literal pieces.
