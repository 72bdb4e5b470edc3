# docker-containers-mointor, modelled in Dafny

The tool reads the user's SSH configuration and picks the hosts to visit. It asks each host for
its Docker containers with `docker ps --format=…`, fed through SSH, and prints one table of the
answers. A second module turns the Docker Engine API's container descriptors into `Container`
records. This project models the three core pieces and proves what they promise.

- `run.py`
  - `get_creds_from_config` is modelled as a `while` loop (`Run.GetCredsFromConfig`). It is proved
    equal to a fold of a step function over the classified lines. The properties are proved about
    that fold: stale `HostName`s, the `_` alias rule, the `root` filter, and the errors Python
    raises (a `ValueError` from tuple unpacking, a `NameError` for a variable never assigned).
  - The command selection, the output-to-rows loop of `container_info`, and the table assembly of
    `main`.
  - The header row is `Host, Status, Names, Ports, Image`, but each data row is `host, Names, Ports,
    Status, Image`, the order of the `--format` template. The model keeps this mismatch as written.
- `utils/config_data.py`: `get_host_user_pairs`, the same parser with the alias rule inverted and
  two allowed users. `ConfigData.OppositeAliasRules` shows that the two parsers disagree on the
  block `Host a` / `HostName h` / `User root`, for every `a` and `h`.
- `containers.py`: `Container.__init__` as a function that either builds the record or names the
  exception. The `ports`, `public_host`, `public_port` and `private_port` properties are modelled,
  as is the loop of `get_containers`.

Files:
- `wrappers.dfy`: `Option` and `Result`.
- `pystr.dfy`: the Python `str` operations the code relies on.
  - `isspace`, `strip`, `split()`, `split(sep)`, `join`, `startswith`, `endswith` and `str(n)`.
  - `DigitsValue`, the number a digit string denotes. It agrees with `int(s)` on every non-empty
    digit string. It reads the empty string as 0, where `int('')` raises; an empty port field
    stands for port 0.
  - The split/join round trips.
- `config_lines.dfy`: line classification and the parser state both parsers share.
- `run.dfy`, `config_data.dfy`, `containers.dfy`: one module per source file.

Python's `split(sep)` is modelled on a non-empty separator. The source splits only on `'<|>'`;
the model also splits `ports` on `':'` to prove that the string can be read back. `str(n)` is
modelled for `n >= 0`.

## Model

| member | source | states |
|---|---|---|
| PyStr.Strip | run.py:19 | `strip()` leaves a string that neither starts nor ends with whitespace |
| PyStr.StripEmptyIff | run.py:19 | `line.strip()` is empty exactly when every character is whitespace |
| PyStr.StripEmptyIffSplitWsEmpty | run.py:19-21 | `strip()` is empty exactly when `split()` gives no token |
| PyStr.SplitWsWords | run.py:21 | every token of `split()` is a non-empty run without whitespace |
| PyStr.SplitWsTrailingSpace | run.py:18-21 | trailing whitespace, such as the newline `readlines()` keeps, adds no token to `split()` |
| PyStr.SplitWsJoin | run.py:21 | `split()` of words joined by one space gives back the words |
| PyStr.Split | run.py:47 | `split(sep)` gives at least one piece, and no piece contains `sep` |
| PyStr.JoinSplit | run.py:47 | joining the pieces of `split(sep)` with `sep` gives back the line |
| PyStr.SplitJoin | run.py:47 | for a separator with no border, `split` of pieces joined by it, none containing it, gives back the pieces |
| PyStr.NatToStr | containers.py:18 | `str(n)` is a non-empty digit string without a leading zero, except `"0"` itself |
| PyStr.NatToStrRoundTrip | containers.py:18 | reading back the digits of `str(n)` gives `n`, for every port `n >= 0` |
| ConfigLines.Classify | run.py:19-27 | a malformed line carries its token count, which is not 2; a `Host` line splits into `Host` and its alias; `HostName` and `User` lines pass the prefix test and carry the second token |
| ConfigLines.BlankIffWhitespace | run.py:19 | a line is skipped exactly when it is whitespace only |
| ConfigLines.MalformedIffTokenCount | run.py:21 | the unpacking fails exactly on a non-blank line that does not split into two tokens |
| ConfigLines.HostLineIff | run.py:21-23 | a line is a `Host` line iff it is two tokens and the first is `Host`; the alias is the second token |
| ConfigLines.ClassifyTwoWords | run.py:21-27 | a line `key value`, with or without trailing whitespace such as its newline, is classified by its words: `Host` by equality, `HostName` and `User` by prefix |
| ConfigLines.PrefixKeywords | run.py:24-27 | `UserKnownHostsFile x` counts as a `User` line and `HostNameAlias x` as a `HostName` line |
| ConfigLines.IndentedNeverHostNameOrUser | run.py:24-27 | an indented line is never read as `HostName` or `User`, since the prefix test looks at the raw line |
| ConfigLines.ScanTracksHistory | run.py:22-27 | for any loop body that sets the three variables from their lines: after a prefix that raised nothing, `pass_`, `host` and `user` hold the values the last `Host`, `HostName` and `User` lines gave them |
| ConfigLines.ScanBlankIgnored | run.py:19 | for any loop body that skips blank lines, a whitespace-only line anywhere changes neither the result nor the exception |
| ConfigLines.ScanFailureIsFinal | run.py:21 | once the loop has raised, later lines do not change the outcome |
| ConfigLines.ScanMalformedFails | run.py:21 | for any loop body that rejects malformed lines, such a line makes the loop raise, with `ValueError` unless an earlier line already raised |
| Run.Step | run.py:19-29 | blank and ignored lines change nothing; a malformed line raises `ValueError`; `pass_`, `host` and `user` follow their lines; a `User root` line with `pass_` false appends the current host with `root` when `host` is bound and raises `NameError` for `host` otherwise; no other line changes the pairs; a `User root` line with `pass_` unbound raises `NameError` for `pass_` |
| Run.StepIsLoopBody | run.py:19-27 | `Step` skips blank lines, rejects malformed ones, and sets `pass_` to the `_` test of the alias |
| Run.GetCredsFromConfig | run.py:15-30 | the loop returns exactly the fold `Creds` of `Step` over the classified lines, or the same exception |
| Run.CredsOfAppend | run.py:19-29 | one more line extends the parse as the history-based reference `Extend` says |
| Run.CredsOfIsExpected | run.py:19-29 | the fold and the stateless reference `Expected` agree on every input |
| Run.CredsAppend | run.py:18-29 | `CredsOfAppend` stated on raw lines |
| Run.BlankLineIgnored | run.py:19 | inserting a whitespace-only line anywhere changes neither the result nor the exception |
| Run.FailureIsFinal | run.py:21 | once the parse has raised, later lines do not change the outcome |
| Run.MalformedLineFails | run.py:21 | a line of one or of three or more tokens makes the whole parse fail, with `ValueError` unless an earlier line already raised |
| Run.RootUserBeforeHostFails | run.py:28 | a `User root` line before any `Host` line raises `NameError` for `pass_` |
| Run.OtherUserLineIgnored | run.py:26-28 | a `User` line with any other user never raises and adds nothing, because `and` short-circuits |
| Run.CredsAreRoot | run.py:26-29 | every emitted user is `root`, and there is at most one pair per `User` line |
| Run.SkippedBlockKinds | run.py:22-29 | a block whose alias ends with `_` emits nothing, and the next block reuses the earlier `HostName` |
| Run.StaleHostNameKinds | run.py:24-29 | a block without `HostName` emits the host of the block before it |
| Run.StaleHostNameLines | run.py:18-27 | the lines of that file, newlines included, classify as intended |
| Run.StaleHostNameExample | run.py:15-30 | the stale-host example stated on the text of the file |
| Run.Command | run.py:36-38 | the command is `CMD` followed by the others filter when `others`, or by the running filter otherwise |
| Run.SeparatorBorderFree | run.py:8 | `'<|>'` has no border, so its occurrences never overlap |
| Run.OutputRows | run.py:47-51 | one row per output line |
| Run.InfoRows | run.py:43-56 | a failed SSH round trip gives no rows; otherwise there is one row per output line, so empty output gives none |
| Run.ContainerInfo | run.py:33-56 | the loop returns the rows of whatever the remote host answered to the selected command |
| Run.RowsShape | run.py:43-51 | row 0 starts with the host and the others with `''`; the remaining cells join back to the line with `'<|>'`, and none contains `'<|>'` |
| Run.FormattedLineRow | run.py:12 | a line printed by the `--format` template becomes the row first cell, Names, Ports, Status, Image |
| Run.ConcatAppend | run.py:65-66 | extending by one more block appends its rows and adds its length |
| Run.ConcatLength | run.py:65-66 | the extended rows number the sum of the block lengths |
| Run.ConcatPrefix | run.py:65-66 | the rows of the first `k` blocks never outnumber all the rows |
| Run.ConcatAt | run.py:65-66 | row `j` of block `k` sits at the sum of the earlier blocks' lengths plus `j` |
| Run.ConcatSlice | run.py:65-66 | each block appears intact, in creds order, at its offset |
| Run.Blocks | run.py:63 | exactly one block per credential pair |
| Run.AssembleLayout | run.py:61-74 | the header is row 0; the length is 1 plus the first blocks' rows, plus 2 dividers and the second blocks' rows with `all_`; the two dividers follow the first blocks |
| Run.AssembleFirst | run.py:61-66 | block `k` of the running containers appears intact right after the header and the earlier blocks |
| Run.AssembleSecond | run.py:68-74 | with `all_`, block `k` of the other containers appears intact after the two dividers |
| Run.TableRunningRows | run.py:61-66 | the rows of pair `k` in the table are its host's answer to the running-containers command, right after the header and the earlier pairs' rows |
| Run.TableOtherRows | run.py:68-74 | with `all_`, the same host's answer to the other-states command follows the dividers and the earlier pairs' second-pass rows |
| Run.Gather | run.py:63-64 | the gathered results are the blocks of every pair, in creds order |
| Run.ExtendAll | run.py:65-66 | the `extend` loop appends the concatenation of the results |
| Run.MainTable | run.py:59-74 | `main` raises what the parser raises, or builds the assembled table of the two passes |
| ConfigData.Step | utils/config_data.py:8-18 | blank and ignored lines change nothing; a malformed line raises `ValueError`; `pass_` is the negated `_` test; a `User` line of an allowed user with `pass_` false appends the current host with that user when `host` is bound and raises `NameError` for `host` otherwise; no other line changes the pairs; any `User` line with `pass_` unbound raises `NameError` for `pass_` |
| ConfigData.StepIsLoopBody | utils/config_data.py:8-16 | `Step` skips blank lines, rejects malformed ones, and sets `pass_` to the negated `_` test of the alias |
| ConfigData.GetHostUserPairs | utils/config_data.py:4-20 | the loop returns exactly the fold `HostUserPairs` of `Step` over the classified lines, or the same exception |
| ConfigData.PairsOfAppend | utils/config_data.py:8-18 | one more line extends the parse as the history-based reference `Extend` says |
| ConfigData.PairsOfIsExpected | utils/config_data.py:8-18 | the fold and the stateless reference `Expected` agree on every input |
| ConfigData.PairsAppend | utils/config_data.py:7-18 | `PairsOfAppend` stated on raw lines |
| ConfigData.BlankLineIgnored | utils/config_data.py:8 | inserting a whitespace-only line anywhere changes nothing |
| ConfigData.FailureIsFinal | utils/config_data.py:10 | once the parse has raised, later lines do not change the outcome |
| ConfigData.MalformedLineFails | utils/config_data.py:10 | a non-blank line that is not two tokens makes the parse fail with `ValueError` unless it already raised |
| ConfigData.UserBeforeHostFails | utils/config_data.py:17 | any `User` line before the first `Host` line raises `NameError` for `pass_`, whoever the user is |
| ConfigData.UsersAllowed | utils/config_data.py:15-18 | every emitted user is `root` or `dkrasnov`, and there is at most one pair per `User` line |
| ConfigData.OppositeAliasRules | utils/config_data.py:12-18 | on the block `Host a` / `HostName h` / `User root`, for every `a` and `h`, this parser keeps the pair exactly when `run.py`'s parser drops it |
| ConfigData.StaleHostNameKinds | utils/config_data.py:13-18 | a block without `HostName` reuses the previous host, and pairs come in the order of their lines |
| Containers.NewContainer | containers.py:6-12 | fails with `KeyError`/`IndexError` on the first missing field, in the source's order; otherwise copies `Names[0]`, `Image`, `State` and `Status`; the network info is the first `Ports` entry, or empty without one |
| Containers.PortText | containers.py:18 | `port or ''` is empty exactly for port 0; otherwise it is `str(port)`, digits without a leading zero that read back as the port |
| Containers.Ports | containers.py:14-19 | `ports` is `''` exactly when the network info is empty |
| Containers.PublicHostOf | containers.py:21-23 | `public_host` is the `IP` of the first `Ports` entry, or `''` without a first entry or without that key |
| Containers.PublicPortOf | containers.py:25-27 | `public_port` is the `PublicPort` of the first `Ports` entry, or 0 without one |
| Containers.PrivatePortOf | containers.py:29-31 | `private_port` is the `PrivatePort` of the first `Ports` entry, or 0 without one |
| Containers.NoNetworkInfoDefaults | containers.py:11-31 | with no `Ports`, an empty list or a first entry `{}`, every property takes its default and `ports` is `''` |
| Containers.OnlyUnreadKeysGiveColons | containers.py:16-18 | a first entry holding only keys such as `Type` is truthy, so `ports` is `::` |
| Containers.OnlyFirstPortUsed | containers.py:11-12 | the entries after the first in `Ports` change no property |
| Containers.PortsRoundTrip | containers.py:16-18 | for a host without `:`, splitting `ports` on `:` gives three fields: the host, then the two port fields. A port field is empty exactly for port 0 and otherwise holds that port's digits, without a leading zero |
| Containers.DockerExample | containers.py:14-31 | IP `10.0.0.5` with ports 8080 and 80 gives `public_host` `10.0.0.5`, the two ports, and `ports` `10.0.0.5:8080:80` |
| Containers.ContainersOf | containers.py:47-51 | without an exception, one record per descriptor, in descriptor order; otherwise the exception of the first descriptor that fails |
| Containers.FailureIsFinal | containers.py:48-49 | an exception among the first descriptors is the outcome of the whole call |
| Containers.GetContainers | containers.py:47-51 | the loop returns exactly `ContainersOf` of the descriptors |

## Left out

- Opening the file and `expanduser` (run.py:17, utils/config_data.py:6): the parsers take the lines `readlines()` returns.
- `splitlines` on the SSH output (run.py:43): `container_info` takes the output as a sequence of lines.
- The SSH connection, `conn.run` and the `wait_for` timeouts (run.py:40-41) are a function parameter `Remote` from (host, user, command) to the output lines. It answers `None` for any failure that the blanket `except` turns into no rows.
- `Remote` answers the same for the same arguments. The real connection may answer differently when a pair comes twice or the two passes look at different moments.
- `asyncio.gather` (run.py:63, 71) is modelled as a sequential loop in creds order. That is the order `gather` returns its results in. Concurrency itself is not modelled.
- The `print` calls in the `except` and after assembly, `AsciiTable` rendering, argparse (run.py:52-54, 76-84), and `Container.__repr__` (containers.py:33-36): presentation and command line only.
- The aiohttp Unix-socket request and JSON decoding (containers.py:39-45): `get_containers` takes the decoded descriptors.
- The `all_states` parameter (containers.py:39, 44) only shapes that request. The `timeout` parameter is never read.
- Ports are natural numbers already, so `int()` on other JSON values is not modelled (containers.py:27, 31).
- A descriptor's `Names`, `Image`, `State` and `Status` values have the types Docker sends: a list of strings and three strings.
- `Ports: null` and a missing `Ports` are both represented as `None`. Python keeps `None` in `_ports`; the model stores the empty list. No property can tell the two apart.
- Reading a property leaves the record unchanged because `Container` is modelled as a value: its attributes are assigned once in `__init__` and never again.
- The port-forwarding allocator, tunnels and polling loop of the wider design do not appear in these source files and are not modelled.
