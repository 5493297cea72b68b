/**
 * The remote polling script: an endless shell loop that, every `interval`
 * seconds, captures each probe of the `stats` registry into `host_<key>` and
 * prints all captures on one line separated by ` == `.
 */
module PollCommand {
  import opened Text
  import opened Wrappers

  // The probes are opaque shell commands; only their text matters here.
  const UptimeProbe := "uptime"
  const CpuProbe := "top -bn 2 -d 0.3 | grep '^%\\?Cpu.s.' | tail -1 | awk '{print $2+$4+$6 \"%\"}'"
  const RamFreeProbe := "free | egrep 'Mem|buffers' | tr -d '\\n' | awk '{print $14*100/$7 \"%\"}'"
  const RamMeminfoProbe := "cat /proc/meminfo | head | tr -d '\\n' | awk '{print ($2-$4-$8-$10)*100/$2}'"
  const DiskProbe := "df -lh | grep '% /$' | awk '{print $5}'"
  const ProcessesProbe := "ps axw o %cpu,%mem,start_time,cmd | egrep -v 'grep|\\%CPU' | sed -e 's/ *$//g' -e 's/ \\([a-z\\/\\.-]*\\/\\)/ /g' | sort -n | tail -15 | tr '\\n' '@'"

  /** The `stats` object literal as written: six entries, `ram` twice. */
  const StatsLiteral: seq<(string, string)> := [
    ("uptime", UptimeProbe),
    ("cpu", CpuProbe),
    ("ram", RamFreeProbe),
    ("ram", RamMeminfoProbe),
    ("disk", DiskProbe),
    ("processes", ProcessesProbe)
  ]

  /** The last step of every iteration: print the captures, separated by ` == `. */
  const EchoStep := "echo $host_uptime == $host_cpu == $host_ram == $host_disk == $host_processes"

  /** The interval used when `poll` is called without one. */
  const DefaultInterval := "2.5"

  /** A JavaScript object with string keys: its keys in enumeration order and its values. */
  datatype Registry = Registry(keys: seq<string>, values: map<string, string>)

  ghost predicate WellFormed(r: Registry)
  {
    (forall k :: k in r.keys <==> k in r.values) &&
    (forall i, j :: 0 <= i < j < |r.keys| ==> r.keys[i] != r.keys[j])
  }

  /** Setting one property: a new key takes the next slot, a known key keeps its slot. */
  function Insert(r: Registry, key: string, value: string): Registry
  {
    if key in r.values then Registry(r.keys, r.values[key := value])
    else Registry(r.keys + [key], r.values[key := value])
  }

  /** Setting a property keeps the keys and the slots in step. */
  lemma InsertWellFormed(r: Registry, key: string, value: string)
    requires WellFormed(r)
    ensures WellFormed(Insert(r, key, value))
  {
  }

  /**
   * Evaluating an object literal: the entries are set one after the other, so a
   * repeated key keeps the slot of its first entry and the value of its last.
   */
  function FromLiteral(entries: seq<(string, string)>): Registry
  {
    if |entries| == 0 then Registry([], map[])
    else Insert(FromLiteral(entries[..|entries| - 1]), entries[|entries| - 1].0, entries[|entries| - 1].1)
  }

  /** An evaluated literal has its keys and slots in step. */
  lemma {:induction false} LiteralWellFormed(entries: seq<(string, string)>)
    ensures WellFormed(FromLiteral(entries))
    decreases |entries|
  {
    if |entries| > 0 {
      var prefix := entries[..|entries| - 1];
      LiteralWellFormed(prefix);
      InsertWellFormed(FromLiteral(prefix), entries[|entries| - 1].0, entries[|entries| - 1].1);
    }
  }

  /** Each key holds the value of the last entry that sets it. */
  lemma {:induction false} LastEntryWins(entries: seq<(string, string)>, i: nat)
    requires i < |entries|
    requires forall j :: i < j < |entries| ==> entries[j].0 != entries[i].0
    ensures entries[i].0 in FromLiteral(entries).values
    ensures FromLiteral(entries).values[entries[i].0] == entries[i].1
    decreases |entries|
  {
    if i < |entries| - 1 {
      var prefix := entries[..|entries| - 1];
      assert prefix[i] == entries[i];
      LastEntryWins(prefix, i);
    }
  }

  /** The `stats` registry the source builds. */
  function Stats(): (r: Registry)
    ensures WellFormed(r)
  {
    LiteralWellFormed(StatsLiteral);
    FromLiteral(StatsLiteral)
  }

  /** Evaluating one entry more of a literal sets one more property. */
  lemma PrefixStep(entries: seq<(string, string)>, k: nat)
    requires k < |entries|
    ensures FromLiteral(entries[..k + 1]) == Insert(FromLiteral(entries[..k]), entries[k].0, entries[k].1)
  {
    assert entries[..k + 1][..k] == entries[..k];
  }

  /** The five `stats` keys are pairwise different. */
  lemma StatsKeysDistinct()
    ensures "cpu" != "uptime" && "ram" != "uptime" && "ram" != "cpu"
    ensures "disk" != "uptime" && "disk" != "cpu" && "disk" != "ram"
    ensures "processes" != "uptime" && "processes" != "cpu" && "processes" != "ram" && "processes" != "disk"
  {
    assert "cpu"[0] != "uptime"[0] && "ram"[0] != "uptime"[0] && "ram"[0] != "cpu"[0];
    assert "disk"[0] != "uptime"[0] && "disk"[0] != "cpu"[0] && "disk"[0] != "ram"[0];
    assert "processes"[0] != "uptime"[0] && "processes"[0] != "cpu"[0] && "processes"[0] != "ram"[0];
    assert "processes"[0] != "disk"[0];
  }

  /** The first four entries of the `stats` literal: `ram` is set twice and keeps its slot. */
  lemma StatsFirstFour(e: seq<(string, string)>, uptime: string, cpu: string, ram0: string, ram1: string)
    requires |e| >= 4 && e[0] == ("uptime", uptime) && e[1] == ("cpu", cpu)
    requires e[2] == ("ram", ram0) && e[3] == ("ram", ram1)
    ensures FromLiteral(e[..4]) == Registry(["uptime", "cpu", "ram"], map["uptime" := uptime, "cpu" := cpu, "ram" := ram1])
  {
    var m2 := map["uptime" := uptime, "cpu" := cpu];
    StatsKeysDistinct();
    assert FromLiteral(e[..0]) == Registry([], map[]);
    PrefixStep(e, 0);
    PrefixStep(e, 1);
    assert FromLiteral(e[..2]) == Registry(["uptime", "cpu"], m2);
    PrefixStep(e, 2);
    assert FromLiteral(e[..3]) == Registry(["uptime", "cpu", "ram"], m2["ram" := ram0]);
    PrefixStep(e, 3);
    assert m2["ram" := ram0]["ram" := ram1] == m2["ram" := ram1];
  }

  /**
   * The shape of the `stats` literal decides the registry, whatever the probes
   * say: the entries are set in order, and the second `ram` overwrites the
   * value of the first in its slot.
   */
  lemma StatsShape(uptime: string, cpu: string, ram0: string, ram1: string, disk: string, processes: string)
    ensures var r := FromLiteral([("uptime", uptime), ("cpu", cpu), ("ram", ram0), ("ram", ram1),
                                  ("disk", disk), ("processes", processes)]);
      r.keys == ["uptime", "cpu", "ram", "disk", "processes"] &&
      r.values == map["uptime" := uptime, "cpu" := cpu, "ram" := ram1, "disk" := disk, "processes" := processes]
  {
    var e := [("uptime", uptime), ("cpu", cpu), ("ram", ram0), ("ram", ram1), ("disk", disk), ("processes", processes)];
    var m4 := map["uptime" := uptime, "cpu" := cpu, "ram" := ram1];
    StatsFirstFour(e, uptime, cpu, ram0, ram1);
    StatsKeysDistinct();
    PrefixStep(e, 4);
    assert ["uptime", "cpu", "ram"] + ["disk"] == ["uptime", "cpu", "ram", "disk"];
    assert FromLiteral(e[..5]) == Registry(["uptime", "cpu", "ram", "disk"], m4["disk" := disk]);
    PrefixStep(e, 5);
    assert ["uptime", "cpu", "ram", "disk"] + ["processes"] == ["uptime", "cpu", "ram", "disk", "processes"];
    assert e[..6] == e;
  }

  /** The duplicate `ram` key keeps its first slot and the value written last. */
  lemma StatsOrder()
    ensures Stats().keys == ["uptime", "cpu", "ram", "disk", "processes"]
    ensures Stats().values == map["uptime" := UptimeProbe, "cpu" := CpuProbe, "ram" := RamMeminfoProbe,
                                  "disk" := DiskProbe, "processes" := ProcessesProbe]
  {
    StatsShape(UptimeProbe, CpuProbe, RamFreeProbe, RamMeminfoProbe, DiskProbe, ProcessesProbe);
  }

  /** `host_<key>=$(<probe>)`: capture one probe's output. */
  function Assignment(key: string, probe: string): string
  {
    "host_" + key + "=$(" + probe + ")"
  }

  /** The loop around the steps, chained with ` && `. */
  function Loop(interval: string, steps: seq<string>): string
  {
    "while sleep " + interval + "; do " + Join(steps, " && ") + "; done"
  }

  /** The steps the source derives from a registry: one capture per key, then the echo. */
  function Steps(r: Registry): seq<string>
    requires WellFormed(r)
  {
    seq(|r.keys|, i requires 0 <= i < |r.keys| => Assignment(r.keys[i], r.values[r.keys[i]])) + [EchoStep]
  }

  /** The command `poll_command(interval)` returns. */
  function PollScript(interval: string): string
  {
    Loop(interval, Steps(Stats()))
  }

  /** `interval || '2.5'`: an absent or empty interval falls back to the default. */
  function EffectiveInterval(interval: Option<string>): (r: string)
    ensures r != ""
    ensures interval.Some? && interval.value != "" ==> r == interval.value
  {
    if interval.Some? && interval.value != "" then interval.value else DefaultInterval
  }

  /** The steps of a registry with the `stats` keys, whatever the probes say. */
  lemma StepsOfStatsShape(r: Registry, uptime: string, cpu: string, ram: string, disk: string, processes: string)
    requires r.keys == ["uptime", "cpu", "ram", "disk", "processes"]
    requires r.values == map["uptime" := uptime, "cpu" := cpu, "ram" := ram, "disk" := disk, "processes" := processes]
    ensures WellFormed(r)
    ensures Steps(r) == [Assignment("uptime", uptime), Assignment("cpu", cpu), Assignment("ram", ram),
                         Assignment("disk", disk), Assignment("processes", processes), EchoStep]
  {
    StatsKeysDistinct();
    assert WellFormed(r);
    assert r.values[r.keys[0]] == uptime && r.values[r.keys[1]] == cpu && r.values[r.keys[2]] == ram;
    assert r.values[r.keys[3]] == disk && r.values[r.keys[4]] == processes;
  }

  /**
   * The script in full: the five captures in the order uptime, cpu, ram, disk,
   * processes, `ram` with the `/proc/meminfo` probe, then the echo step.
   */
  lemma PollScriptSteps(interval: string)
    ensures PollScript(interval) == Loop(interval, [
      Assignment("uptime", UptimeProbe),
      Assignment("cpu", CpuProbe),
      Assignment("ram", RamMeminfoProbe),
      Assignment("disk", DiskProbe),
      Assignment("processes", ProcessesProbe),
      EchoStep])
  {
    StatsOrder();
    StepsOfStatsShape(Stats(), UptimeProbe, CpuProbe, RamMeminfoProbe, DiskProbe, ProcessesProbe);
  }

  /** `poll_command`: walk the `stats` registry, pushing one capture per key, then the echo step. */
  method BuildPollCommand(interval: string) returns (command: string)
    ensures command == PollScript(interval)
  {
    command := BuildCommand(interval, Stats());
  }

  /** The loop of `poll_command` over a registry's keys in enumeration order. */
  method BuildCommand(interval: string, stats: Registry) returns (command: string)
    requires WellFormed(stats)
    ensures command == Loop(interval, Steps(stats))
  {
    var list: seq<string> := [];
    var i := 0;
    while i < |stats.keys|
      invariant 0 <= i <= |stats.keys|
      invariant |list| == i
      invariant forall j :: 0 <= j < i ==> list[j] == Assignment(stats.keys[j], stats.values[stats.keys[j]])
    {
      var key := stats.keys[i];
      list := list + [Assignment(key, stats.values[key])];
      i := i + 1;
    }
    list := list + [EchoStep];
    assert list == Steps(stats);
    command := "while sleep " + interval + "; do " + Join(list, " && ") + "; done";
  }
}
