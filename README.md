# rtop `lib/remote.js` in Dafny

This project models the one component of rtop that talks to a monitored host,
`lib/remote.js`:

- `poll_command` and the `stats` registry. This is the shell loop that runs every
  probe once per interval and prints one ` == `-separated line.
- The host-spec parsing in the `Remote` constructor (`[user@]host[:port]`).
- The sample parser `poll` attaches to the remote channel: `parse`, which caches
  the fields of an accepted chunk and emits one `update`, and `parseProcesses`,
  which turns the `@`-separated process block into entries, last row first.
- The `Remote` object's lifecycle. This covers `connect`, `start`, `poll`,
  `stop` and `disconnect`, the connection's `ready`, `error` and `end` events, a
  data chunk, the polling channel closing, and the five accessors.

Files:

- `wrappers.dfy`: `Option` and `Result`.
- `text.dfy`: the JavaScript string primitives the source relies on:
  - `split` with a string separator;
  - `join`;
  - `trim`, with ECMAScript's whitespace set;
  - `reverse`.
- `poll_command.dfy`: the registry as a JavaScript object (keys in enumeration
  order plus values), the evaluation of the `stats` literal, and `poll_command`
  as a method with the source's loop.
- `host_spec.dfy`: the constructor's `user`, `port` and `host`. The regular
  expression `/(\w+@)?([^:]+)/` is modelled as the leftmost-match search it
  performs.
- `shell_echo.dfy`: what the loop's `echo` step prints. Each capture is
  expanded unquoted, so the shell splits it into words at spaces, tabs and
  newlines, and `echo` prints the words separated by single spaces.
- `sample_parser.dfy`: `parse` and `parseProcesses` as functions, plus their
  round trips against the text the loop prints.
- `lifecycle.dfy`: the class `Remote`.
  - Every request to the SSH library (open, exec on a pty, end) and every
    callback invocation is appended to a `trace`.
  - Events reported by the SSH library arrive as calls to `OnReady`, `OnError`,
    `OnEnd`, `OnData` and `OnChannelClosed`.
  - Callbacks are identified by numbers.
  - The environment (`$USER`, `$SSH_AUTH_SOCK`) and the key `get_key` reads from
    disk are parameters.

Behaviour of `lib/remote.js` worth knowing:

- The chunk is split on `"== "`, so the uptime, cpu, memory and disk fields
  keep the trailing space the `echo` line puts before each separator.
- The `echo` step expands the captures unquoted. An empty capture vanishes, a
  run of blanks inside a capture becomes one space, and blanks at either end
  are dropped. An empty cpu capture therefore leaves `== == ` in the line,
  which `parse` ignores. An empty process block leaves the line ending in
  ` ==`, which `parse` reads as four fields and no processes.
- Records are tokenised on single spaces, so a run of spaces yields empty
  tokens.
- Chunks that arrive after `stop` are still parsed and emitted.
- `stop` while `connected` always calls `disconnect`. Called twice before `end`
  arrives, it ends the connection twice, and both callbacks run on `end`.
- `stop()` without a callback while disconnected throws. The exec-error and
  channel-end paths take this route, so the model reports it as a fault.
- The connection state is the one boolean `connected`.
- The `stats` literal has two `ram` entries. The key keeps its first slot and
  takes the `/proc/meminfo` probe text.

## Model

| member | source | states |
|---|---|---|
| Text.Join | lib/remote.js:138 | `parts.join(sep)`: the pieces with the separator between neighbours, the empty list joining to the empty string. Its partners are JoinSplit and SplitJoin, which state that it inverts `split` |
| Text.Split | lib/remote.js:114 | `split` on a non-empty separator always yields at least one piece |
| Text.JoinSplit | lib/remote.js:132-138 | joining the pieces of a split with the same separator gives the original text back, so `arr.join(' ')` restores a command split on spaces |
| Text.SplitCut | lib/remote.js:46 | a piece that holds no first character of the separator, followed by the separator, is cut off as the first piece |
| Text.SplitWhole | lib/remote.js:114 | a text holding no first character of the separator splits into itself alone |
| Text.SplitJoin | lib/remote.js:129 | splitting undoes joining when no piece holds the separator's first character |
| Text.SplitFree | lib/remote.js:114 | a text with no occurrence of the separator splits into itself alone |
| Text.SplitJoinFree | lib/remote.js:114 | splitting undoes joining when only the last piece holds the separator's first character, and that piece holds no whole occurrence of the separator |
| Text.SplitAtChar | lib/remote.js:47 | a text holding `:` splits into at least two pieces, so `split(':')[1]` is defined |
| Text.FirstPiece | lib/remote.js:46 | the first piece of a one-character split is the prefix before the first occurrence of that character |
| Text.TrimStart | lib/remote.js:132 | removes exactly the leading whitespace: the result is a suffix, everything dropped is whitespace, and the result does not start with whitespace |
| Text.TrimEnd | lib/remote.js:132 | removes exactly the trailing whitespace, in the same three terms |
| Text.TrimKeeps | lib/remote.js:138 | a text with no whitespace at either end is its own `trim` |
| Text.TrimDropsTail | lib/remote.js:129 | trimming a non-blank text followed by whitespace gives that text |
| Text.Trim | lib/remote.js:129-132 | `trim` as TrimEnd after TrimStart, so what the two state holds of it; TrimKeeps and TrimDropsTail are its lemmas |
| Text.Reverse | lib/remote.js:140 | `reverse` keeps the length and puts element `i` at position `n-1-i` |
| PollCommand.Insert | lib/remote.js:21-28 | setting one property of the object: a new key takes the next slot, a known key keeps its slot and takes the new value. InsertWellFormed is its invariant |
| PollCommand.FromLiteral | lib/remote.js:21-28 | evaluating an object literal sets its entries one after the other. LiteralWellFormed and LastEntryWins state what that yields |
| PollCommand.InsertWellFormed | lib/remote.js:21-28 | setting a property keeps the key list and the value map in step, with no key repeated |
| PollCommand.LiteralWellFormed | lib/remote.js:21-28 | evaluating any object literal yields a well-formed registry |
| PollCommand.LastEntryWins | lib/remote.js:21-28 | a key holds the value of the last literal entry that sets it |
| PollCommand.Stats | lib/remote.js:21-28 | the `stats` object is a well-formed registry |
| PollCommand.PrefixStep | lib/remote.js:21-28 | evaluating one more entry of a literal sets one more property |
| PollCommand.StatsKeysDistinct | lib/remote.js:22-27 | the five property names of `stats` are pairwise different |
| PollCommand.StatsFirstFour | lib/remote.js:22-25 | after `uptime`, `cpu` and two `ram` entries, the object has three keys, and `ram` holds the second value in its first slot |
| PollCommand.StatsShape | lib/remote.js:21-28 | any literal shaped like `stats` yields the keys uptime, cpu, ram, disk, processes in that order, with `ram` holding the later of its two values |
| PollCommand.StatsOrder | lib/remote.js:21-28 | `stats` enumerates uptime, cpu, ram, disk, processes, and `ram` maps to the `/proc/meminfo` probe |
| PollCommand.EffectiveInterval | lib/remote.js:109 | `interval \|\| '2.5'` is never empty and keeps a given non-empty interval |
| PollCommand.StepsOfStatsShape | lib/remote.js:33-38 | for a registry with the `stats` keys, the steps are one `host_<key>=$(<probe>)` capture per key in order, then the echo line |
| PollCommand.PollScript | lib/remote.js:30-39 | the command `poll_command(interval)` returns, over `stats`. PollScriptSteps spells it out and BuildPollCommand is the loop that computes it |
| PollCommand.PollScriptSteps | lib/remote.js:30-39 | `poll_command(interval)` is `while sleep <interval>; do ` plus the five captures, `ram` using the meminfo probe, plus the echo line, all joined by ` && `, plus `; done` |
| PollCommand.BuildPollCommand | lib/remote.js:30-40 | the method walking `stats` returns exactly that script |
| PollCommand.BuildCommand | lib/remote.js:30-39 | the loop pushing one capture per key in enumeration order, then the echo, and joining with ` && ` builds the loop over the registry's steps |
| HostSpec.WordPrefix | lib/remote.js:48 | the longest run of `\w` characters at the front of the text |
| HostSpec.BeforeColon | lib/remote.js:48 | a colon-free prefix of the text, followed by a colon or by the end of the text |
| HostSpec.HostMatch | lib/remote.js:48 | the regular expression matches exactly when the spec has a character other than `:`, and group 2 is then a non-empty, colon-free text |
| HostSpec.ParseTarget | lib/remote.js:42-51 | the constructor fails exactly on an all-colon spec. Otherwise the host is group 2 of the match, non-empty and colon-free. With `@` the user is the `@`-free text before the first `@`; without, it falls back to `opts.user`, then `$USER`. With `:` the port is the text between the first `:` and the second (or the end); without, it falls back to `opts.port`, then 22 |
| HostSpec.UserPiece | lib/remote.js:46 | with an `@`, `split('@')[0]` is the `@`-free text before the first `@` |
| HostSpec.PortPiece | lib/remote.js:47 | with a `:`, `split(':')[1]` is the text between the first `:` and the second, or the end |
| HostSpec.BeforePort | lib/remote.js:48 | the colon-free part before an optional `:port` is what precedes the first colon |
| HostSpec.HostWithoutUser | lib/remote.js:48 | without `@`, group 2 runs from the first character to the first colon |
| HostSpec.HostAfterWordUser | lib/remote.js:48 | after a `\w+@` user, group 2 is the rest up to its first colon |
| HostSpec.HostOfSpecText | lib/remote.js:48 | the host of a well-formed `[user@]host[:port]` spec is its host part |
| HostSpec.UserOfSpecText | lib/remote.js:46 | such a spec holds `@` exactly when it has a user, and the text before the `@` is that user |
| HostSpec.PortAfter | lib/remote.js:47 | after a colon-free prefix, a `:` is present exactly when a port follows, and the second `:`-piece is that port |
| HostSpec.PortOfSpecText | lib/remote.js:47 | a well-formed spec holds `:` exactly when it has a port, and `split(':')[1]` is that port |
| HostSpec.ParseSpecText | lib/remote.js:46-48 | parsing a well-formed spec gives back its user, host and port; the options and `$USER` fill in only what the spec leaves out |
| HostSpec.WordUserPrefix | lib/remote.js:48 | the `\w` run at the front of `user@rest` is exactly the user |
| HostSpec.HostFromFront | lib/remote.js:48 | when a non-word character precedes every `@`, `\w+@` cannot match at the front and group 2 starts at the first character |
| HostSpec.NonWordUserHost | lib/remote.js:48 | a user with a non-word character (such as `first.last`) stays in the host: group 2 is `user@host` |
| HostSpec.NonWordUserUser | lib/remote.js:46 | for such a spec the `user` field is still the text before the `@` |
| HostSpec.NonWordUserPort | lib/remote.js:47 | for such a spec the port is still the text after the `:` |
| HostSpec.NonWordUserStaysInHost | lib/remote.js:46-48 | the constructor's full result for such a spec: user `user`, host `user@host`, and the port from the spec or the fallbacks |
| SampleParser.Field | lib/remote.js:119-121 | `split[i]` is defined exactly when `i` is in range, and is then that piece |
| SampleParser.ParseRecord | lib/remote.js:131-139 | one record, trimmed and split on single spaces: three shifted tokens, then the rest re-joined with spaces and trimmed. RecordHasCpu and RecordRoundTrip are its lemmas |
| SampleParser.Records | lib/remote.js:129-130 | the block trimmed, split on `@` and filtered to the non-blank records. NonBlankKeeps and BlockRecords are its lemmas |
| SampleParser.RecordHasCpu | lib/remote.js:132-135 | a non-blank record always yields a non-empty, space-free cpu token |
| SampleParser.NonBlank | lib/remote.js:130 | the `filter` keeps at most as many records as it is given |
| SampleParser.NonBlankKeeps | lib/remote.js:130 | the `filter` keeps exactly the records that are not blank after `trim` |
| SampleParser.ParseEach | lib/remote.js:131-139 | the `map` yields one entry per record |
| SampleParser.ParseEachAt | lib/remote.js:131-139 | entry `i` of the `map` is record `i`, parsed |
| SampleParser.ParseProcesses | lib/remote.js:126-141 | an absent or empty block yields `[]`; any other block yields one entry per non-blank record |
| SampleParser.ProcessesInReverse | lib/remote.js:129-140 | entry `i` is the `i`-th non-blank record from the end, parsed |
| SampleParser.Accepted | lib/remote.js:115 | `split[1]` is present and non-empty. ParseSample accepts exactly the chunks it holds of |
| SampleParser.ParseSample | lib/remote.js:111-124 | a chunk is accepted exactly when its second `== `-piece exists and is non-empty. An accepted chunk starts with its uptime field, the separator and its cpu field, and the cpu field is non-empty. A chunk without `=` is rejected |
| SampleParser.JoinStartsWith | lib/remote.js:114-118 | a text joined from two or more pieces starts with the first two pieces and the separator between them |
| SampleParser.SplitTokens | lib/remote.js:132-137 | three space-free tokens, each followed by a space, come first in the split |
| SampleParser.RowTokens | lib/remote.js:132 | the trimmed text of a well-formed process row splits into its three tokens, then the pieces of its command |
| SampleParser.RecordOfTokens | lib/remote.js:132-138 | a record whose tokens are three tokens plus pieces parses to those three tokens and the pieces re-joined and trimmed |
| SampleParser.RecordRoundTrip | lib/remote.js:132-138 | a well-formed row `cpu mem start command` parses back to `{cpu, mem, start, command}`, embedded spaces in the command included |
| SampleParser.BlockSplit | lib/remote.js:129 | a block of rows, each followed by `@`, splits into the rows' texts and one empty piece |
| SampleParser.BlockEnds | lib/remote.js:127 | a non-empty block is truthy: it starts with a non-blank character and ends with `@` |
| SampleParser.NonBlankRowTexts | lib/remote.js:130 | the `filter` keeps every row text and drops the empty piece after the last `@` |
| SampleParser.ParseEachRows | lib/remote.js:131-139 | the `map` over the rows' texts yields the rows' entries |
| SampleParser.BlankBlock | lib/remote.js:127-130 | a block of whitespace only yields no entries |
| SampleParser.BlockTrim | lib/remote.js:129 | `trim` drops the trailing whitespace of a block and nothing else |
| SampleParser.BlockRecords | lib/remote.js:129-130 | the records of a block with trailing whitespace are exactly its rows' texts |
| SampleParser.ProcessesRoundTrip | lib/remote.js:126-141 | printing well-formed rows as the processes probe does and parsing the block gives the rows' entries in reverse order |
| SampleParser.EchoLine | lib/remote.js:38 | the five captures joined by ` == `. PrintedCaptures states when the `echo` step prints exactly that |
| SampleParser.EchoFields | lib/remote.js:114 | the five ` == `-joined captures split into five fields. Each of the first four keeps its trailing space |
| SampleParser.ParseJoinedCaptures | lib/remote.js:111-124 | the ` == `-joined captures, the first four without `=` and the last without `== `, are accepted with those fields |
| SampleParser.SampleOfFields | lib/remote.js:114-121 | a chunk that splits into five fields, the second non-empty, is parsed into exactly those fields, with the block going to `parseProcesses` |
| SampleParser.SampleOfFourFields | lib/remote.js:114-121 | a chunk that splits into four fields, the second non-empty, is parsed into those fields and no processes |
| SampleParser.PrintedLine | lib/remote.js:38 | what the `echo` step prints for the five captures. PrintedCaptures and EmptyCpuRejected state what that is |
| SampleParser.PrintedCaptures | lib/remote.js:38 | when every capture is non-empty, has no tab or newline, no blank at either end and no two spaces in a row, the `echo` step prints the captures joined by ` == ` |
| SampleParser.ParseEchoLine | lib/remote.js:111-124 | the line the loop prints, with its line end, is accepted with the four captures and their trailing spaces, and the rest goes to `parseProcesses`, when every capture prints as it is, the first four hold no `=` and the block and line end hold no `== ` |
| SampleParser.EchoLineRoundTrip | lib/remote.js:111-141 | end to end: the printed line for a block of well-formed rows, with the pty's line end, yields the captures and the rows' entries, last row first |
| SampleParser.EmptyCpuRejected | lib/remote.js:115 | an empty cpu capture vanishes from the `echo`, leaving an empty second field, so the line is ignored |
| SampleParser.FourFields | lib/remote.js:114 | four ` == `-joined captures, the first three without `=` and the last without `== `, split into four fields |
| SampleParser.DiskFieldFree | lib/remote.js:38 | a disk capture without `=`, then ` ==` and a line end without spaces, holds no `== ` |
| SampleParser.EmptyProcessBlock | lib/remote.js:127 | an empty process block vanishes from the `echo`, so the disk field runs to the end of the line and the process list is empty |
| SampleParser.TwoRowsReversed | lib/remote.js:140 | two rows come back with the later row first |
| ShellEcho.Cuts | lib/remote.js:38 | field splitting's cut of a capture at every space, tab and newline, which always leaves at least one piece |
| ShellEcho.CutsAreSpaceSplit | lib/remote.js:38 | without tabs and newlines, that cut is a split on single spaces |
| ShellEcho.SpacedPiecesNonEmpty | lib/remote.js:38 | a capture that prints as it is splits on spaces into non-empty pieces only |
| ShellEcho.AfterSpace | lib/remote.js:38 | what follows a space inside a capture that prints as it is prints as it is too |
| ShellEcho.WordsOfPrinted | lib/remote.js:38 | such a capture becomes at least one word, and `echo` prints its words as the capture itself |
| ShellEcho.JoinAppend | lib/remote.js:38 | joining two non-empty lists is joining each, with the separator between them |
| ShellEcho.EchoFront | lib/remote.js:38 | a leading capture that prints as it is comes out followed by ` == ` and the rest of the line |
| ShellEcho.EchoOfPrinted | lib/remote.js:38 | when every capture prints as it is, the `echo` step prints them joined by ` == ` |
| ShellEcho.NoWords | lib/remote.js:38 | an empty capture becomes no word |
| ShellEcho.EmptyCaptureVanishes | lib/remote.js:38 | an empty capture leaves no argument, so the `==` around it end up side by side |
| ShellEcho.LeadingEquals | lib/remote.js:38 | an `==` argument ahead of others comes out as `== ` before them |
| ShellEcho.EchoSkipsLeadingEmpty | lib/remote.js:38 | an empty capture ahead of others leaves `== ` at the front of their echo |
| ShellEcho.EchoSkipsEmpty | lib/remote.js:38 | an empty second capture leaves `== == ` after the first |
| ShellEcho.EchoEndsEmpty | lib/remote.js:38 | an empty last capture leaves the line ending in ` ==` |
| Lifecycle.Reaches | lib/remote.js:171 | a caller's listener reaches its callback; a `stop` wrapper reaches the callback it wraps, if any |
| Lifecycle.WaiterCallback | lib/remote.js:75 | `ready` and `error` reach `connect`'s `done`, or `start`'s `cb` through its wrapper |
| Lifecycle.Fired | lib/remote.js:178 | on `end`, at most one call per listener fires, each call without an error. Nothing fires exactly when no listener reaches a callback |
| Lifecycle.FiredFromListeners | lib/remote.js:178 | every callback `end` reaches belongs to a registered listener |
| Lifecycle.FiredAppend | lib/remote.js:178 | listeners registered later fire after those registered earlier |
| Lifecycle.Gate | lib/remote.js:182-200 | the shared gate is `null` exactly when not connected, and the cached field otherwise |
| Lifecycle.Remote.constructor | lib/remote.js:42-51 | a new object takes `user`, `port` and `host` from the parsed spec and the key options as given. It starts disconnected, with no connection, no updates and an empty trace |
| Lifecycle.Remote.ConnectionOptions | lib/remote.js:62-71 | `connect` passes the object's host, port and user, a 30000 ms ready timeout, compression, agent forwarding and the agent socket. The private key is its own key when truthy, else the one found on disk |
| Lifecycle.Remote.Open | lib/remote.js:57-71 | opening records the connect request, and the new connection object, with no listeners, replaces the old one |
| Lifecycle.Remote.Connect | lib/remote.js:55-94 | `connect(done)` opens a connection whose `ready` or `error` reaches `done`; the flag is untouched |
| Lifecycle.Remote.Start | lib/remote.js:96-104 | `start(cb)` opens a connection whose `ready` or `error` reaches `cb` through the wrapper that may poll |
| Lifecycle.Remote.Run | lib/remote.js:143 | `exec` records the command, with a pty, on the current connection |
| Lifecycle.Remote.Poll | lib/remote.js:106-109 | `poll(interval)` runs the loop over `stats` at `interval \|\| '2.5'` on a pty. Without a connection object it throws and nothing changes |
| Lifecycle.Remote.OnReady | lib/remote.js:87-91 | `ready` sets the flag and calls the waiter without an error. For `connect` the connection is untouched. For `start`, polling at 2.5 s follows the callback and the connection has run one more command |
| Lifecycle.Remote.OnError | lib/remote.js:73-76 | `error` passes the error to the waiter. Nothing is polled and the flag is unchanged |
| Lifecycle.Remote.OnEnd | lib/remote.js:78-81 | `end` clears the flag, fires the registered listeners in order, and makes every accessor return `null` |
| Lifecycle.Remote.OnData | lib/remote.js:111-124 | an accepted chunk replaces all five cached fields with its sample and is emitted once, in full. Any other chunk changes nothing |
| Lifecycle.Remote.OnChannelClosed | lib/remote.js:143-148 | an exec error or the channel's end calls `stop()`. This ends a live connection, and throws when disconnected |
| Lifecycle.Remote.Stop | lib/remote.js:167-174 | while connected, `stop` registers a wrapper on `end` and ends the connection. Otherwise it calls `cb` at once without touching the connection, or throws without a `cb` |
| Lifecycle.Remote.Disconnect | lib/remote.js:176-180 | `disconnect` appends the listener to the connection's `end` listeners and ends the connection. Without a connection object it throws |
| Lifecycle.Remote.Uptime | lib/remote.js:182-184 | `null` unless connected, else the cached uptime |
| Lifecycle.Remote.Cpu | lib/remote.js:186-188 | `null` unless connected, else the cached cpu field |
| Lifecycle.Remote.Mem | lib/remote.js:190-192 | `null` unless connected, else the cached memory field |
| Lifecycle.Remote.Disk | lib/remote.js:194-196 | `null` unless connected, else the cached disk field |
| Lifecycle.Remote.Processes | lib/remote.js:198-200 | `null` unless connected, else the cached process list |
| Lifecycle.ReadingsBeforeUpdates | lib/remote.js:182-200 | connected but before any update, every accessor reads undefined |
| Lifecycle.ReadingsAfterUpdate | lib/remote.js:117-121 | connected, every accessor reads the field of the sample the latest emitted update parses to |
| Lifecycle.StopTwiceWhileDisconnected | lib/remote.js:172-173 | `stop` twice while disconnected runs both callbacks at once, in order, and never touches the connection |
| Lifecycle.StopTwiceThenEnd | lib/remote.js:170-180 | `stop` twice while connected ends the connection twice. On `end` the flag clears, and both callbacks run after every earlier listener |
| Lifecycle.StartThenError | lib/remote.js:99-102 | a failed `start` passes the error to the callback, runs no command and leaves all five accessors `null` |
| Lifecycle.StartThenReady | lib/remote.js:99-102 | a successful `start` calls back without an error, then runs `poll_command('2.5')` on a pty |

## Left out

- The SSH library itself: the handshake, authentication, channels and the pty.
  Its requests are entries in the trace, and its events are method calls made
  in the order the library would report them.
- `get_key`, the filesystem and the environment. The key found on disk,
  `$USER` and `$SSH_AUTH_SOCK` are parameters.
- `parseFloat`. The cpu, memory and disk fields are cached as the raw text the
  source hands to it, because floating-point parsing and `NaN` are outside the
  model.
- What the shell probes compute. They are opaque constants.
- `debug` logging, the commented-out stream methods, and the connection's
  `close` listener, which does nothing.
- Events of a connection that a later `connect` replaced. Only the current
  connection's listeners are modelled.
- `disconnect(cb)` called directly: it is modelled only through `stop`'s
  wrapper and through a caller's numbered callback.
- Lifecycle.Remote.constructor: requires a spec that the regular expression
  matches. The source throws on an all-colon spec. HostSpec.ParseTarget models
  that case as `Failure(NoHostMatch)`.
- Lifecycle.Remote.OnData: requires that a command was run on the connection,
  because only then is there a channel to deliver chunks.
- Lifecycle.Remote.OnChannelClosed: requires the same. It models both the
  exec-error path and the channel-end path, because both call `stop()` the same
  way.
- HostSpec.ParseSpecText: the round trip is stated for specs built from a
  `\w+` user, a host without `@` or `:`, and a port without either. For other
  specs, HostSpec.ParseTarget's contract locates the user, host and port in the
  spec without building the spec from them. HostSpec.NonWordUserStaysInHost
  covers a user with a non-word character.
- SampleParser.RecordRoundTrip: the round trip is stated for rows whose tokens
  are separated by single spaces and carry no `@`. Runs of spaces produce empty
  tokens, which the source does not merge.
- SampleParser.EchoLineRoundTrip: the round trip is stated for captures without
  `=` that print as they are, and a process block without `== `. A capture
  holding `== ` would shift the fields.
- SampleParser.ParseEchoLine: pathname expansion of the unquoted captures is not
  modelled. A capture word holding `*`, `?` or `[` could be replaced by file
  names in the shell's working directory.
- SampleParser.EchoLineRoundTrip: the same pathname expansion is not modelled.
- SampleParser.PrintedLine: `echo` options are not modelled. A leading capture
  word such as `-n` or `-e` would be taken as an option.
