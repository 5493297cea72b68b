/**
 * The parser `poll` attaches to the remote channel: one data chunk becomes the
 * cached sample fields, and the process block becomes a list of entries.
 */
module SampleParser {
  import opened Wrappers
  import opened Text
  import opened ShellEcho

  /** The literal the chunk is split on: no leading space, so each field keeps its trailing one. */
  const FieldSeparator := "== "
  const RecordSeparator := "@"
  const TokenSeparator := " "

  /** One process line; a field is `undefined` when the line has too few tokens. */
  datatype ProcessEntry = ProcessEntry(cpu: Option<string>, mem: Option<string>, start: Option<string>, process: string)

  /**
   * The fields one accepted chunk sets. The cpu, memory and disk fields keep the
   * raw text the source hands to `parseFloat`; fields 2 and 3 may be missing.
   */
  datatype Sample = Sample(uptime: string, cpu: string, mem: Option<string>, disk: Option<string>, processes: seq<ProcessEntry>)

  /** `parts[i]`, or `undefined` past the end. */
  function Field(parts: seq<string>, i: nat): (r: Option<string>)
    ensures r.Some? <==> i < |parts|
    ensures r.Some? ==> r.value == parts[i]
  {
    if i < |parts| then Some(parts[i]) else None
  }

  /** What is left of `tokens` after `shift()` was called `n` times. */
  function Drop(tokens: seq<string>, n: nat): seq<string>
  {
    if |tokens| <= n then [] else tokens[n..]
  }

  /**
   * One record: trimmed, split on single spaces; the first three tokens are cpu,
   * mem and start time, and the rest, re-joined with spaces and trimmed, is the
   * command.
   */
  function ParseRecord(line: string): ProcessEntry
  {
    var tokens := Split(Trim(line), TokenSeparator);
    ProcessEntry(Some(tokens[0]), Field(tokens, 1), Field(tokens, 2), Trim(Join(Drop(tokens, 3), TokenSeparator)))
  }

  /** A non-blank record always yields a cpu token, non-empty and free of spaces. */
  lemma RecordHasCpu(line: string)
    requires Trim(line) != ""
    ensures var e := ParseRecord(line); e.cpu.Some? && e.cpu.value != "" && ' ' !in e.cpu.value
  {
    FirstPiece(Trim(line), ' ');
  }

  /** The records that are not blank after trimming, in their order. */
  function NonBlank(records: seq<string>): (kept: seq<string>)
    ensures |kept| <= |records|
  {
    if |records| == 0 then []
    else if Trim(records[0]) == "" then NonBlank(records[1..])
    else [records[0]] + NonBlank(records[1..])
  }

  /** `filter` keeps exactly the records that are not blank. */
  lemma {:induction false} NonBlankKeeps(records: seq<string>)
    ensures forall x :: x in NonBlank(records) <==> x in records && Trim(x) != ""
  {
    if |records| > 0 {
      NonBlankKeeps(records[1..]);
      assert records == [records[0]] + records[1..];
    }
  }

  /** The records of a process block that yield entries. */
  function Records(block: string): seq<string>
  {
    NonBlank(Split(Trim(block), RecordSeparator))
  }

  /** `records.map(...)`: one entry per record, in order. */
  function ParseEach(records: seq<string>): (entries: seq<ProcessEntry>)
    ensures |entries| == |records|
  {
    if |records| == 0 then [] else [ParseRecord(records[0])] + ParseEach(records[1..])
  }

  /** The entry at each position is the record at that position, parsed. */
  lemma {:induction false} ParseEachAt(records: seq<string>)
    ensures forall i :: 0 <= i < |records| ==> ParseEach(records)[i] == ParseRecord(records[i])
  {
    if |records| > 0 {
      ParseEachAt(records[1..]);
    }
  }

  /**
   * `parseProcesses`: nothing for an absent or empty block; otherwise one entry
   * per non-blank `@`-separated record, the last record first.
   */
  function ParseProcesses(block: Option<string>): (entries: seq<ProcessEntry>)
    ensures !Truthy(block) ==> entries == []
    ensures Truthy(block) ==> |entries| == |Records(block.value)|
  {
    if !Truthy(block) then []
    else Reverse(ParseEach(Records(block.value)))
  }

  /** Entry `i` of a block is its `i`-th record from the end, parsed. */
  lemma ProcessesInReverse(block: string)
    requires block != ""
    ensures var records := Records(block);
      forall i :: 0 <= i < |records| ==> ParseProcesses(Some(block))[i] == ParseRecord(records[|records| - 1 - i])
  {
    ParseEachAt(Records(block));
  }

  /** `if (!split[1]) return;`: a chunk is a sample when its second field is present and non-empty. */
  predicate Accepted(chunk: string)
  {
    var fields := Split(chunk, FieldSeparator);
    |fields| >= 2 && fields[1] != ""
  }

  /**
   * `parse`, without its effects: the sample an accepted chunk yields. Its
   * uptime and cpu text are the chunk's first two fields, in order.
   */
  function ParseSample(chunk: string): (r: Option<Sample>)
    ensures r.Some? <==> Accepted(chunk)
    ensures r.Some? ==> r.value.cpu != "" && r.value.uptime + FieldSeparator + r.value.cpu <= chunk
    ensures '=' !in chunk ==> r.None?
  {
    var fields := Split(chunk, FieldSeparator);
    if '=' !in chunk then SplitWhole(chunk, FieldSeparator); None
    else if |fields| < 2 || fields[1] == "" then None
    else
      JoinSplit(chunk, FieldSeparator);
      JoinStartsWith(fields, FieldSeparator);
      Some(Sample(fields[0], fields[1], Field(fields, 2), Field(fields, 3), ParseProcesses(Field(fields, 4))))
  }

  /** A joined list of at least two pieces starts with the first two and the separator between them. */
  lemma JoinStartsWith(parts: seq<string>, sep: string)
    requires |parts| >= 2
    ensures parts[0] + sep + parts[1] <= Join(parts, sep)
  {
    if |parts| > 2 {
      assert Join(parts[1..], sep) == parts[1] + sep + Join(parts[2..], sep);
    }
  }

  /** One line of the processes probe: `%cpu %mem start_time cmd`. */
  datatype Row = Row(cpu: string, mem: string, start: string, command: string)

  /** The text of a row, its four parts separated by single spaces. */
  function RowText(r: Row): string
  {
    r.cpu + " " + r.mem + " " + r.start + " " + r.command
  }

  /** The entry a row stands for. */
  function Entry(r: Row): ProcessEntry
  {
    ProcessEntry(Some(r.cpu), Some(r.mem), Some(r.start), r.command)
  }

  /** A cpu, mem or start token: non-empty, with no whitespace and no `@`. */
  predicate IsToken(t: string)
  {
    t != "" && forall i :: 0 <= i < |t| ==> !IsWhitespace(t[i]) && t[i] != '@'
  }

  /** A row the parser can take apart: three tokens, then a command without `@` and without outer whitespace. */
  predicate WellFormedRow(r: Row)
  {
    IsToken(r.cpu) && IsToken(r.mem) && IsToken(r.start) && '@' !in r.command &&
    (r.command != "" ==> !IsWhitespace(r.command[0]) && !IsWhitespace(r.command[|r.command| - 1]))
  }

  /** The process block the probe prints: every row followed by `@` (its newline, translated). */
  function Block(rows: seq<Row>): string
  {
    if |rows| == 0 then "" else RowText(rows[0]) + "@" + Block(rows[1..])
  }

  function RowTexts(rows: seq<Row>): seq<string>
  {
    if |rows| == 0 then [] else [RowText(rows[0])] + RowTexts(rows[1..])
  }

  function Entries(rows: seq<Row>): seq<ProcessEntry>
  {
    if |rows| == 0 then [] else [Entry(rows[0])] + Entries(rows[1..])
  }

  /** Splitting three space-free tokens and the rest on single spaces. */
  lemma SplitTokens(cpu: string, mem: string, start: string, rest: string)
    requires ' ' !in cpu && ' ' !in mem && ' ' !in start
    ensures Split(cpu + " " + mem + " " + start + " " + rest, " ") == [cpu, mem, start] + Split(rest, " ")
  {
    var third := start + " " + rest;
    var second := mem + " " + third;
    assert cpu + " " + mem + " " + start + " " + rest == cpu + " " + second;
    SplitCut(start, " ", rest);
    SplitCut(mem, " ", third);
    SplitCut(cpu, " ", second);
    ConsThree(cpu, mem, start, Split(cpu + " " + second, " "), Split(second, " "), Split(third, " "), Split(rest, " "));
  }

  /** Three pieces put in front one at a time are the three pieces put in front at once. */
  lemma ConsThree<T>(a: T, b: T, c: T, first: seq<T>, second: seq<T>, third: seq<T>, rest: seq<T>)
    requires third == [c] + rest && second == [b] + third && first == [a] + second
    ensures first == [a, b, c] + rest
  {
    assert [a] + ([b] + ([c] + rest)) == [a, b, c] + rest;
  }

  /** A token has no space in it. */
  lemma TokenHasNoSpace(t: string)
    requires IsToken(t)
    ensures ' ' !in t && '@' !in t
  {
    assert forall i :: 0 <= i < |t| ==> t[i] != ' ';
  }

  /** The tokens of a row's trimmed text: its three tokens, then the command's pieces. */
  lemma {:induction false} RowTokens(r: Row)
    requires WellFormedRow(r)
    ensures Split(Trim(RowText(r)), " ") == [r.cpu, r.mem, r.start] + (if r.command == "" then [] else Split(r.command, " "))
  {
    TokenHasNoSpace(r.cpu);
    TokenHasNoSpace(r.mem);
    TokenHasNoSpace(r.start);
    var head := r.cpu + " " + r.mem + " " + r.start;
    assert head[0] == r.cpu[0] && head[|head| - 1] == r.start[|r.start| - 1];
    if r.command == "" {
      assert RowText(r) == head + " ";
      TrimDropsTail(head, " ");
      assert head == r.cpu + " " + (r.mem + " " + r.start);
      SplitCut(r.cpu, " ", r.mem + " " + r.start);
      SplitCut(r.mem, " ", r.start);
      SplitWhole(r.start, " ");
    } else {
      var text := RowText(r);
      assert text[0] == r.cpu[0] && text[|text| - 1] == r.command[|r.command| - 1];
      TrimKeeps(text);
      SplitTokens(r.cpu, r.mem, r.start, r.command);
    }
  }

  /** A line whose tokens are three tokens and then the pieces of a command is parsed into those parts. */
  lemma RecordOfTokens(line: string, cpu: string, mem: string, start: string, command: string, rest: seq<string>)
    requires Split(Trim(line), TokenSeparator) == [cpu, mem, start] + rest
    requires Trim(Join(rest, TokenSeparator)) == command
    ensures ParseRecord(line) == ProcessEntry(Some(cpu), Some(mem), Some(start), command)
  {
    var tokens := [cpu, mem, start] + rest;
    assert tokens[3..] == rest;
  }

  /** A well-formed row is parsed back into the entry it stands for. */
  lemma {:induction false} RecordRoundTrip(r: Row)
    requires WellFormedRow(r)
    ensures ParseRecord(RowText(r)) == Entry(r)
  {
    var rest := if r.command == "" then [] else Split(r.command, " ");
    assert Split(Trim(RowText(r)), " ") == [r.cpu, r.mem, r.start] + rest by {
      RowTokens(r);
    }
    assert Trim(Join(rest, " ")) == r.command by {
      if r.command != "" {
        JoinSplit(r.command, " ");
        TrimKeeps(r.command);
      }
    }
    RecordOfTokens(RowText(r), r.cpu, r.mem, r.start, r.command, rest);
  }

  /** A block of well-formed rows splits into the rows' texts and one empty piece after the last `@`. */
  lemma {:induction false} BlockSplit(rows: seq<Row>)
    requires forall i :: 0 <= i < |rows| ==> WellFormedRow(rows[i])
    ensures Split(Block(rows), "@") == RowTexts(rows) + [""]
    decreases |rows|
  {
    if |rows| > 0 {
      var r := rows[0];
      TokenHasNoSpace(r.cpu);
      TokenHasNoSpace(r.mem);
      TokenHasNoSpace(r.start);
      assert '@' !in RowText(r);
      SplitCut(RowText(r), "@", Block(rows[1..]));
      BlockSplit(rows[1..]);
    }
  }

  /** A non-empty block starts with a token character and ends with `@`. */
  lemma BlockEnds(rows: seq<Row>)
    requires |rows| > 0 && WellFormedRow(rows[0])
    ensures var b := Block(rows); |b| > 0 && !IsWhitespace(b[0]) && b[|b| - 1] == '@'
  {
    BlockEndsAt(rows);
  }

  /** A non-empty block ends with `@`. */
  lemma {:induction false} BlockEndsAt(rows: seq<Row>)
    requires |rows| > 0
    ensures var b := Block(rows); |b| > 0 && b[|b| - 1] == '@'
    decreases |rows|
  {
    if |rows| > 1 {
      BlockEndsAt(rows[1..]);
    }
  }

  /** A text that starts with a non-blank character is not blank. */
  lemma NotBlank(s: string)
    requires |s| > 0 && !IsWhitespace(s[0])
    ensures Trim(s) != ""
  {
    assert TrimStart(s) == s;
  }

  /** A text of whitespace only is blank. */
  lemma AllBlank(s: string)
    requires forall i :: 0 <= i < |s| ==> IsWhitespace(s[i])
    ensures Trim(s) == ""
  {
  }

  /** Dropping blank records keeps every record of well-formed rows and drops the empty tail. */
  lemma {:induction false} NonBlankRowTexts(rows: seq<Row>)
    requires forall i :: 0 <= i < |rows| ==> WellFormedRow(rows[i])
    ensures NonBlank(RowTexts(rows) + [""]) == RowTexts(rows)
    decreases |rows|
  {
    if |rows| == 0 {
      assert RowTexts(rows) + [""] == [""];
      assert NonBlank([""][1..]) == [];
    } else {
      var texts := RowTexts(rows) + [""];
      var text := RowText(rows[0]);
      assert texts[0] == text && texts[1..] == RowTexts(rows[1..]) + [""];
      assert Trim(text) != "" by {
        assert text[0] == rows[0].cpu[0];
        NotBlank(text);
      }
      assert NonBlank(texts) == [text] + NonBlank(texts[1..]);
      NonBlankRowTexts(rows[1..]);
    }
  }

  /** Parsing the texts of well-formed rows gives their entries. */
  lemma {:induction false} ParseEachRows(rows: seq<Row>)
    requires forall i :: 0 <= i < |rows| ==> WellFormedRow(rows[i])
    ensures ParseEach(RowTexts(rows)) == Entries(rows)
    decreases |rows|
  {
    if |rows| > 0 {
      RecordRoundTrip(rows[0]);
      ParseEachRows(rows[1..]);
      var texts := RowTexts(rows);
      assert texts[1..] == RowTexts(rows[1..]);
      assert ParseEach(texts) == [ParseRecord(texts[0])] + ParseEach(texts[1..]);
    }
  }

  /** A block that holds only whitespace yields no entries. */
  lemma BlankBlock(tail: string)
    requires forall i :: 0 <= i < |tail| ==> IsWhitespace(tail[i])
    ensures ParseProcesses(Some(tail)) == []
  {
    if tail != "" {
      AllBlank(tail);
      assert Split("", "@") == [""];
      assert NonBlank([""][1..]) == [];
    }
  }

  /** Trimming a non-empty block drops the trailing whitespace and nothing else. */
  lemma BlockTrim(rows: seq<Row>, tail: string)
    requires |rows| > 0 && WellFormedRow(rows[0])
    requires forall i :: 0 <= i < |tail| ==> IsWhitespace(tail[i])
    ensures Trim(Block(rows) + tail) == Block(rows)
  {
    BlockEnds(rows);
    TrimDropsTail(Block(rows), tail);
  }

  /** The records of a non-empty block with trailing whitespace are the rows' texts. */
  lemma BlockRecords(rows: seq<Row>, tail: string)
    requires |rows| > 0 && forall i :: 0 <= i < |rows| ==> WellFormedRow(rows[i])
    requires forall i :: 0 <= i < |tail| ==> IsWhitespace(tail[i])
    ensures Records(Block(rows) + tail) == RowTexts(rows)
  {
    BlockTrim(rows, tail);
    BlockSplit(rows);
    NonBlankRowTexts(rows);
  }

  /**
   * The probe's process block, with any trailing whitespace (the pty's line
   * end), parses to the rows' entries in reverse order.
   */
  lemma ProcessesRoundTrip(rows: seq<Row>, tail: string)
    requires forall i :: 0 <= i < |rows| ==> WellFormedRow(rows[i])
    requires forall i :: 0 <= i < |tail| ==> IsWhitespace(tail[i])
    ensures ParseProcesses(Some(Block(rows) + tail)) == Reverse(Entries(rows))
  {
    if |rows| == 0 {
      assert Block(rows) + tail == tail;
      BlankBlock(tail);
    } else {
      var text := Block(rows) + tail;
      assert Records(text) == RowTexts(rows) by {
        BlockRecords(rows, tail);
      }
      assert ParseEach(RowTexts(rows)) == Entries(rows) by {
        ParseEachRows(rows);
      }
      assert Truthy(Some(text)) by {
        BlockEnds(rows);
      }
      assert ParseProcesses(Some(text)) == Reverse(ParseEach(Records(text)));
    }
  }

  /**
   * The five captures joined by ` == `: what the echo step prints when every
   * capture prints as it is (see PrintedCaptures).
   */
  function EchoLine(uptime: string, cpu: string, ram: string, disk: string, processes: string): string
  {
    uptime + " == " + cpu + " == " + ram + " == " + disk + " == " + processes
  }

  /** The fields of the ` == `-joined captures, each of the first four with its trailing space. */
  lemma {:induction false} EchoFields(uptime: string, cpu: string, ram: string, disk: string, processes: string)
    requires '=' !in uptime && '=' !in cpu && '=' !in ram && '=' !in disk
    requires Free(processes, FieldSeparator)
    ensures Split(EchoLine(uptime, cpu, ram, disk, processes), FieldSeparator) ==
      [uptime + " ", cpu + " ", ram + " ", disk + " ", processes]
  {
    var sep := FieldSeparator;
    var parts := [uptime + " ", cpu + " ", ram + " ", disk + " ", processes];
    assert " == " == " " + sep;
    assert Join(parts[4..], sep) == processes;
    assert Join(parts[3..], sep) == disk + " " + sep + processes;
    assert Join(parts[2..], sep) == ram + " " + sep + (disk + " " + sep + processes);
    assert Join(parts[1..], sep) == cpu + " " + sep + (ram + " " + sep + (disk + " " + sep + processes));
    assert Join(parts, sep) == EchoLine(uptime, cpu, ram, disk, processes);
    SplitJoinFree(parts, sep);
  }

  /**
   * The parser accepts any five ` == `-joined captures whose first four hold no
   * `=` and whose last holds no `== `: each of the first four fields keeps the
   * space before its separator, and the last goes to `parseProcesses`.
   */
  lemma ParseJoinedCaptures(uptime: string, cpu: string, ram: string, disk: string, processes: string)
    requires '=' !in uptime && '=' !in cpu && '=' !in ram && '=' !in disk
    requires Free(processes, FieldSeparator)
    ensures ParseSample(EchoLine(uptime, cpu, ram, disk, processes)) ==
      Some(Sample(uptime + " ", cpu + " ", Some(ram + " "), Some(disk + " "), ParseProcesses(Some(processes))))
  {
    EchoFields(uptime, cpu, ram, disk, processes);
    var line := EchoLine(uptime, cpu, ram, disk, processes);
    assert line[|uptime| + 2] == '=';
    SampleOfFields(line, uptime + " ", cpu + " ", ram + " ", disk + " ", processes);
  }

  /** A chunk that splits into five fields, the second non-empty, is parsed into those fields. */
  lemma SampleOfFields(chunk: string, uptime: string, cpu: string, ram: string, disk: string, processes: string)
    requires '=' in chunk && cpu != ""
    requires Split(chunk, FieldSeparator) == [uptime, cpu, ram, disk, processes]
    ensures ParseSample(chunk) == Some(Sample(uptime, cpu, Some(ram), Some(disk), ParseProcesses(Some(processes))))
  {
  }

  /** A chunk that splits into four fields, the second non-empty, is parsed into those fields and no processes. */
  lemma SampleOfFourFields(chunk: string, uptime: string, cpu: string, ram: string, disk: string)
    requires '=' in chunk && cpu != ""
    requires Split(chunk, FieldSeparator) == [uptime, cpu, ram, disk]
    ensures ParseSample(chunk) == Some(Sample(uptime, cpu, Some(ram), Some(disk), []))
  {
  }

  /** What the echo step prints for the five captures, before its line end. */
  function PrintedLine(uptime: string, cpu: string, ram: string, disk: string, processes: string): string
  {
    Echo(EchoArgs([uptime, cpu, ram, disk, processes]))
  }

  /** When every capture prints as it is, the echo step prints them joined by ` == `. */
  lemma PrintedCaptures(uptime: string, cpu: string, ram: string, disk: string, processes: string)
    requires PrintsAsIs(uptime) && PrintsAsIs(cpu) && PrintsAsIs(ram) && PrintsAsIs(disk) && PrintsAsIs(processes)
    ensures PrintedLine(uptime, cpu, ram, disk, processes) == EchoLine(uptime, cpu, ram, disk, processes)
  {
    var captures := [uptime, cpu, ram, disk, processes];
    EchoOfPrinted(captures);
    var sep := " == ";
    assert captures[1..][1..][1..][1..] == [processes];
    assert Join(captures[1..][1..][1..], sep) == disk + sep + processes;
    assert Join(captures[1..][1..], sep) == ram + sep + (disk + sep + processes);
    assert Join(captures[1..], sep) == cpu + sep + (ram + sep + (disk + sep + processes));
  }

  /**
   * The line the loop prints, with its line end, when every capture prints as
   * it is, the first four hold no `=` and the processes capture and the line
   * end hold no `== `: each of the first four fields keeps the space before its
   * separator, and the rest of the line goes to `parseProcesses`.
   */
  lemma ParseEchoLine(uptime: string, cpu: string, ram: string, disk: string, processes: string, tail: string)
    requires PrintsAsIs(uptime) && PrintsAsIs(cpu) && PrintsAsIs(ram) && PrintsAsIs(disk) && PrintsAsIs(processes)
    requires '=' !in uptime && '=' !in cpu && '=' !in ram && '=' !in disk
    requires Free(processes + tail, FieldSeparator)
    ensures ParseSample(PrintedLine(uptime, cpu, ram, disk, processes) + tail) ==
      Some(Sample(uptime + " ", cpu + " ", Some(ram + " "), Some(disk + " "), ParseProcesses(Some(processes + tail))))
  {
    PrintedCaptures(uptime, cpu, ram, disk, processes);
    assert EchoLine(uptime, cpu, ram, disk, processes) + tail == EchoLine(uptime, cpu, ram, disk, processes + tail);
    ParseJoinedCaptures(uptime, cpu, ram, disk, processes + tail);
  }

  /**
   * End to end: the line the loop prints for a process block of well-formed
   * rows, with the pty's line end, yields the captures and the rows' entries,
   * the last row first.
   */
  lemma EchoLineRoundTrip(uptime: string, cpu: string, ram: string, disk: string, rows: seq<Row>, tail: string)
    requires PrintsAsIs(uptime) && PrintsAsIs(cpu) && PrintsAsIs(ram) && PrintsAsIs(disk) && PrintsAsIs(Block(rows))
    requires '=' !in uptime && '=' !in cpu && '=' !in ram && '=' !in disk
    requires forall i :: 0 <= i < |rows| ==> WellFormedRow(rows[i])
    requires forall i :: 0 <= i < |tail| ==> IsWhitespace(tail[i])
    requires Free(Block(rows) + tail, FieldSeparator)
    ensures ParseSample(PrintedLine(uptime, cpu, ram, disk, Block(rows)) + tail) ==
      Some(Sample(uptime + " ", cpu + " ", Some(ram + " "), Some(disk + " "), Reverse(Entries(rows))))
  {
    ParseEchoLine(uptime, cpu, ram, disk, Block(rows), tail);
    ProcessesRoundTrip(rows, tail);
  }

  /**
   * An empty cpu capture vanishes from the echo, leaving `== == ` in the line:
   * the second field is empty and the line is not a sample.
   */
  lemma EmptyCpuRejected(uptime: string, ram: string, disk: string, processes: string, tail: string)
    requires PrintsAsIs(uptime) && PrintsAsIs(ram) && PrintsAsIs(disk) && PrintsAsIs(processes)
    requires '=' !in uptime
    ensures ParseSample(PrintedLine(uptime, "", ram, disk, processes) + tail) == None
  {
    var later := [ram, disk, processes];
    assert [uptime, "", ram, disk, processes] == [uptime] + ([""] + later);
    EchoOfPrinted(later);
    EchoSkipsEmpty(uptime, later);
    var rest := Join(later, " == ") + tail;
    var line := PrintedLine(uptime, "", ram, disk, processes) + tail;
    assert line == (uptime + " ") + FieldSeparator + ("" + FieldSeparator + rest);
    SplitCut("", FieldSeparator, rest);
    SplitCut(uptime + " ", FieldSeparator, "" + FieldSeparator + rest);
  }

  /** Four captures, the first three without `=` and the last without `== `, split back into four fields. */
  lemma {:induction false} FourFields(uptime: string, cpu: string, ram: string, last: string)
    requires '=' !in uptime && '=' !in cpu && '=' !in ram
    requires Free(last, FieldSeparator)
    ensures Split(uptime + " == " + cpu + " == " + ram + " == " + last, FieldSeparator) ==
      [uptime + " ", cpu + " ", ram + " ", last]
  {
    var sep := FieldSeparator;
    var parts := [uptime + " ", cpu + " ", ram + " ", last];
    assert " == " == " " + sep;
    assert Join(parts[3..], sep) == last;
    assert Join(parts[2..], sep) == ram + " " + sep + last;
    assert Join(parts[1..], sep) == cpu + " " + sep + (ram + " " + sep + last);
    assert Join(parts, sep) == uptime + " == " + cpu + " == " + ram + " == " + last;
    SplitJoinFree(parts, sep);
  }

  /** A disk capture without `=`, then ` ==` and a line end without spaces, holds no `== `. */
  lemma DiskFieldFree(disk: string, tail: string)
    requires '=' !in disk
    requires forall i :: 0 <= i < |tail| ==> tail[i] != ' '
    ensures Free(disk + " ==" + tail, FieldSeparator)
  {
    var last := disk + " ==" + tail;
    forall i: nat | i <= |last|
      ensures !OccursAt(last, FieldSeparator, i)
    {
      if i + 3 <= |last| {
        var window := last[i..i + 3];
        if i < |disk| {
          assert window[0] == disk[i];
        } else if i == |disk| {
          assert window[0] == ' ';
        } else {
          assert window[2] == tail[i + 2 - |disk| - 3];
        }
      }
    }
  }

  /**
   * An empty processes capture vanishes from the echo, so the line ends in
   * ` ==` and splits into four fields: the disk field runs to the end of the
   * line, and there are no processes.
   */
  lemma EmptyProcessBlock(uptime: string, cpu: string, ram: string, disk: string, tail: string)
    requires PrintsAsIs(uptime) && PrintsAsIs(cpu) && PrintsAsIs(ram) && PrintsAsIs(disk)
    requires '=' !in uptime && '=' !in cpu && '=' !in ram && '=' !in disk
    requires forall i :: 0 <= i < |tail| ==> IsWhitespace(tail[i]) && tail[i] != ' '
    ensures ParseSample(PrintedLine(uptime, cpu, ram, disk, "") + tail) ==
      Some(Sample(uptime + " ", cpu + " ", Some(ram + " "), Some(disk + " ==" + tail), []))
  {
    var captures := [uptime, cpu, ram, disk];
    assert [uptime, cpu, ram, disk, ""] == captures + [""];
    EchoEndsEmpty(captures);
    var sep := " == ";
    assert Join(captures[3..], sep) == disk;
    assert Join(captures[2..], sep) == ram + sep + disk;
    assert Join(captures[1..], sep) == cpu + sep + (ram + sep + disk);
    var last := disk + " ==" + tail;
    var line := PrintedLine(uptime, cpu, ram, disk, "") + tail;
    assert line == uptime + sep + cpu + sep + ram + sep + last;
    DiskFieldFree(disk, tail);
    FourFields(uptime, cpu, ram, last);
    assert line[|uptime| + 2] == '=';
    SampleOfFourFields(line, uptime + " ", cpu + " ", ram + " ", last);
  }

  /** Two process rows come back in reverse order: the later row is the first entry. */
  lemma TwoRowsReversed(first: Row, second: Row)
    requires WellFormedRow(first) && WellFormedRow(second)
    ensures ParseProcesses(Some(RowText(first) + "@" + RowText(second) + "@")) == [Entry(second), Entry(first)]
  {
    var rows := [first, second];
    assert Block(rows[1..]) == RowText(second) + "@";
    assert Block(rows) + "" == RowText(first) + "@" + RowText(second) + "@";
    ProcessesRoundTrip(rows, "");
    assert Entries(rows[1..]) == [Entry(second)];
  }
}
