/**
 * The `Remote` object: one SSH connection, its `connected` flag, the cached
 * fields of the latest sample and the five accessors gated on the flag.
 *
 * The SSH library is outside the model. What `Remote` asks of it (open a
 * connection, run a command on a pty, end the connection) is recorded in a
 * trace, in order, together with every callback `Remote` invokes. What the
 * library reports back (`ready`, `error`, `end`, a data chunk, the polling
 * channel closing) arrives as a call to one of the `On...` methods.
 * Callbacks are identified by numbers.
 */
module Lifecycle {
  import opened Wrappers
  import opened Text
  import opened HostSpec
  import opened PollCommand
  import opened SampleParser

  /** A registry whose keys and slots are in step, as every object's are. */
  type StatsObject = r: Registry | WellFormed(r) witness Registry([], map[])

  /** The options object handed to the SSH library's `connect`. */
  datatype ConnectOptions = ConnectOptions(
    readyTimeout: nat,
    host: string,
    port: PortValue,
    compress: bool,
    username: Option<string>,
    privateKey: Option<string>,
    agentForward: bool,
    agent: Option<string>)

  const ReadyTimeout: nat := 30000

  /** One observable step: a request to the SSH library, or a callback invoked with its error argument. */
  datatype Effect =
    | Opened(options: ConnectOptions)
    | Executed(command: string, pty: bool)
    | Ended
    | Invoked(callback: nat, error: Option<string>)

  /** Who waits for the connection's `ready` or `error`: a `connect` caller, or `start` on behalf of its caller. */
  datatype Waiter = ConnectCaller(done: nat) | StartCaller(cb: nat)

  /** A listener registered on the connection's `end` by `disconnect`: a caller's callback, or the wrapper `stop` passes. */
  datatype EndListener = Callback(callback: nat) | StopWrapper(wrapped: Option<nat>)

  /** The callback a listener calls when it fires, if any. */
  function Reaches(l: EndListener): (cb: Option<nat>)
    ensures l.Callback? ==> cb == Some(l.callback)
    ensures l.StopWrapper? ==> cb == l.wrapped
  {
    match l
    case Callback(c) => Some(c)
    case StopWrapper(w) => w
  }

  /** The current connection: who waits for it, its `end` listeners in order, and how many commands it was asked to run. */
  datatype Session = Session(waiter: Waiter, endListeners: seq<EndListener>, commands: nat)

  /** A call that throws: there is no connection object yet, or `undefined` is called as a function. */
  datatype Fault = NoConnection | NotAFunction

  /** What an accessor returns: `null`, or the cached field (None while it is still undefined). */
  datatype Reading<T> = Unavailable | Latest(cached: Option<T>)

  /** The callback a waiter's `ready` or `error` reaches. */
  function WaiterCallback(w: Waiter): (cb: nat)
    ensures w.ConnectCaller? ==> cb == w.done
    ensures w.StartCaller? ==> cb == w.cb
  {
    match w
    case ConnectCaller(done) => done
    case StartCaller(cb) => cb
  }

  /**
   * The callbacks `end` reaches, in registration order. Every one is called
   * without an error; a `stop` wrapper without a callback calls nothing.
   */
  function Fired(listeners: seq<EndListener>): (calls: seq<Effect>)
    ensures |calls| <= |listeners|
    ensures forall i :: 0 <= i < |calls| ==> calls[i].Invoked? && calls[i].error == None
    ensures calls == [] <==> forall j :: 0 <= j < |listeners| ==> Reaches(listeners[j]) == None
  {
    if listeners == [] then []
    else
      var first := match Reaches(listeners[0])
        case Some(cb) => [Invoked(cb, None)]
        case None => [];
      first + Fired(listeners[1..])
  }

  /** Each callback `end` reaches belongs to one of the listeners. */
  lemma {:induction false} FiredFromListeners(listeners: seq<EndListener>, i: nat)
    requires i < |Fired(listeners)|
    ensures exists j :: 0 <= j < |listeners| && Reaches(listeners[j]) == Some(Fired(listeners)[i].callback)
  {
    var first := match Reaches(listeners[0])
      case Some(cb) => [Invoked(cb, None)]
      case None => [];
    assert Fired(listeners) == first + Fired(listeners[1..]);
    if i < |first| {
      assert Reaches(listeners[0]) == Some(Fired(listeners)[i].callback);
    } else {
      FiredFromListeners(listeners[1..], i - |first|);
      var j :| 0 <= j < |listeners[1..]| && Reaches(listeners[1..][j]) == Some(Fired(listeners[1..])[i - |first|].callback);
      assert listeners[j + 1] == listeners[1..][j];
    }
  }

  /** The `null` gate every accessor shares. */
  function Gate<T>(connected: bool, field: Option<T>): (r: Reading<T>)
    ensures r.Unavailable? <==> !connected
    ensures r.Latest? ==> r.cached == field
  {
    if connected then Latest(field) else Unavailable
  }

  class Remote {
    const user: Option<string>
    const port: PortValue
    const host: string
    const key: Option<string>
    const keyPath: Option<string>
    /** The `stats` registry `poll_command` walks: the module's own object, the same for every instance. */
    const stats: StatsObject

    var connected: bool
    var currentUptime: Option<string>
    var cpuUsage: Option<string>
    var memUsage: Option<Option<string>>
    var diskUsage: Option<Option<string>>
    var processList: Option<seq<ProcessEntry>>

    /** The connection object, once `connect` has made one. */
    var session: Option<Session>
    /** The text of every `update` emitted, in order. */
    var emitted: seq<string>
    /** The sample each emitted update was parsed into. */
    ghost var samples: seq<Sample>
    /** Requests to the SSH library and callbacks invoked, in order. */
    var trace: seq<Effect>

    /** The five cached fields hold `sample`'s fields, or are all undefined when there is none. */
    predicate Caches(sample: Option<Sample>)
      reads this`currentUptime, this`cpuUsage, this`memUsage, this`diskUsage, this`processList
    {
      match sample
      case None =>
        currentUptime == None && cpuUsage == None && memUsage == None && diskUsage == None && processList == None
      case Some(s) =>
        currentUptime == Some(s.uptime) && cpuUsage == Some(s.cpu) && memUsage == Some(s.mem)
        && diskUsage == Some(s.disk) && processList == Some(s.processes)
    }

    /**
     * Every update emitted was an accepted chunk whose sample is recorded
     * beside it, and the cached fields hold the latest one.
     */
    ghost predicate CachesLatest()
      reads this`emitted, this`samples, this`currentUptime, this`cpuUsage, this`memUsage, this`diskUsage, this`processList
    {
      |samples| == |emitted|
      && (forall i {:trigger ParseSample(emitted[i])} :: 0 <= i < |emitted| ==> ParseSample(emitted[i]) == Some(samples[i]))
      && Caches(if samples == [] then None else Some(samples[|samples| - 1]))
    }

    /**
     * The object's invariant: it is connected only through a connection
     * object, and the cached fields follow the emitted updates.
     */
    ghost predicate Valid()
      reads this`connected, this`session, this`emitted, this`samples
      reads this`currentUptime, this`cpuUsage, this`memUsage, this`diskUsage, this`processList
    {
      (connected ==> session.Some?) && CachesLatest()
    }

    /** `new Remote(host, opts)`, for a host spec the constructor's regular expression matches. */
    constructor (spec: string, opts: Options, envUser: Option<string>)
      requires ParseTarget(spec, opts, envUser).Success?
      ensures Target(user, port, host) == ParseTarget(spec, opts, envUser).value
      ensures key == opts.key && keyPath == opts.keyPath && stats == Stats()
      ensures !connected && session == None && emitted == [] && trace == []
      ensures Valid()
    {
      var target := ParseTarget(spec, opts, envUser).value;
      user := target.user;
      port := target.port;
      host := target.host;
      key := opts.key;
      keyPath := opts.keyPath;
      stats := Stats();
      connected := false;
      currentUptime, cpuUsage, memUsage, diskUsage, processList := None, None, None, None, None;
      session := None;
      emitted := [];
      samples := [];
      trace := [];
    }

    /**
     * The options `connect` passes: its own key if it has one, else the key
     * found on disk (`foundKey`), and the agent socket from the environment.
     */
    function ConnectionOptions(foundKey: Option<string>, agent: Option<string>): (o: ConnectOptions)
      ensures o.host == host && o.port == port && o.username == user && o.agent == agent
      ensures o.readyTimeout == 30000 && o.compress && o.agentForward
      ensures Truthy(key) ==> o.privateKey == key
      ensures !Truthy(key) ==> o.privateKey == foundKey
    {
      ConnectOptions(ReadyTimeout, host, port, true, user, if Truthy(key) then key else foundKey, true, agent)
    }

    /** Opens a connection on behalf of `waiter`; the new connection object replaces the old. */
    method Open(waiter: Waiter, foundKey: Option<string>, agent: Option<string>)
      requires Valid()
      modifies this`trace, this`session
      ensures trace == old(trace) + [Opened(ConnectionOptions(foundKey, agent))]
      ensures session == Some(Session(waiter, [], 0))
      ensures connected == old(connected) && emitted == old(emitted)
      ensures Valid()
    {
      trace := trace + [Opened(ConnectionOptions(foundKey, agent))];
      session := Some(Session(waiter, [], 0));
    }

    /** `connect(done)`: `done` waits for `ready` or `error`; nothing is polled. */
    method Connect(done: nat, foundKey: Option<string>, agent: Option<string>)
      requires Valid()
      modifies this`trace, this`session
      ensures trace == old(trace) + [Opened(ConnectionOptions(foundKey, agent))]
      ensures session == Some(Session(ConnectCaller(done), [], 0))
      ensures connected == old(connected) && emitted == old(emitted)
      ensures Valid()
    {
      Open(ConnectCaller(done), foundKey, agent);
    }

    /** `start(cb)`: connects, and `ready` will also start polling. */
    method Start(cb: nat, foundKey: Option<string>, agent: Option<string>)
      requires Valid()
      modifies this`trace, this`session
      ensures trace == old(trace) + [Opened(ConnectionOptions(foundKey, agent))]
      ensures session == Some(Session(StartCaller(cb), [], 0))
      ensures connected == old(connected) && emitted == old(emitted)
      ensures Valid()
    {
      Open(StartCaller(cb), foundKey, agent);
    }

    /** `exec(command, { pty: true })` on the current connection. */
    method Run(command: string)
      requires Valid() && session.Some?
      modifies this`trace, this`session
      ensures trace == old(trace) + [Executed(command, true)]
      ensures session == Some(old(session).value.(commands := old(session).value.commands + 1))
      ensures connected == old(connected) && emitted == old(emitted)
      ensures Valid()
    {
      trace := trace + [Executed(command, true)];
      session := Some(session.value.(commands := session.value.commands + 1));
    }

    /**
     * `poll(interval)`: asks the connection to run the polling loop on a
     * pty, with `2.5` seconds when no interval is given. Without a
     * connection object the call throws and nothing changes.
     */
    method Poll(interval: Option<string>) returns (fault: Option<Fault>)
      requires Valid()
      modifies this`trace, this`session
      ensures old(session).None? ==> fault == Some(NoConnection) && trace == old(trace) && session == old(session)
      ensures old(session).Some? ==>
        && fault == None
        && trace == old(trace) + [Executed(Loop(EffectiveInterval(interval), Steps(stats)), true)]
        && session == Some(old(session).value.(commands := old(session).value.commands + 1))
      ensures connected == old(connected) && emitted == old(emitted)
      ensures Valid()
    {
      if session.None? {
        fault := Some(NoConnection);
      } else {
        var command := BuildCommand(EffectiveInterval(interval), stats);
        Run(command);
        fault := None;
      }
    }

    /**
     * The connection is `ready`: the flag is set, the waiter is called
     * without an error, and when the waiter is `start` polling begins at the
     * default interval, after the callback.
     */
    method OnReady()
      requires Valid() && session.Some?
      modifies this`connected, this`trace, this`session
      ensures connected
      ensures old(session.value.waiter).ConnectCaller? ==>
        trace == old(trace) + [Invoked(old(session.value.waiter).done, None)] && session == old(session)
      ensures old(session.value.waiter).StartCaller? ==>
        && trace == old(trace) + [Invoked(old(session.value.waiter).cb, None), Executed(Loop(DefaultInterval, Steps(stats)), true)]
        && session == Some(old(session).value.(commands := old(session).value.commands + 1))
      ensures emitted == old(emitted)
      ensures Valid()
    {
      connected := true;
      var waiter := session.value.waiter;
      trace := trace + [Invoked(WaiterCallback(waiter), None)];
      if waiter.StartCaller? {
        var fault := Poll(None);
      }
    }

    /** The connection reports an `error`: the waiter gets it, nothing is polled and the flag is left alone. */
    method OnError(err: string)
      requires Valid() && session.Some?
      modifies this`trace
      ensures trace == old(trace) + [Invoked(WaiterCallback(old(session.value.waiter)), Some(err))]
      ensures connected == old(connected) && session == old(session) && emitted == old(emitted)
      ensures Valid()
    {
      trace := trace + [Invoked(WaiterCallback(session.value.waiter), Some(err))];
    }

    /**
     * The connection `end`s: the flag is cleared first, then every listener
     * `disconnect` registered fires in order. Afterwards every accessor
     * returns `null`.
     */
    method OnEnd()
      requires Valid() && session.Some?
      modifies this`connected, this`trace
      ensures !connected
      ensures trace == old(trace) + Fired(old(session.value.endListeners))
      ensures session == old(session) && emitted == old(emitted)
      ensures Uptime().Unavailable? && Cpu().Unavailable? && Mem().Unavailable?
      ensures Disk().Unavailable? && Processes().Unavailable?
      ensures Valid()
    {
      connected := false;
      trace := trace + Fired(session.value.endListeners);
    }

    /**
     * A chunk arrives on the polling channel. An accepted chunk replaces the
     * five cached fields and is emitted as one `update`; any other chunk
     * changes nothing. The flag is not consulted.
     */
    method OnData(chunk: string)
      requires Valid() && session.Some? && session.value.commands > 0
      modifies this`emitted, this`samples, this`currentUptime, this`cpuUsage, this`memUsage, this`diskUsage, this`processList
      ensures ParseSample(chunk).Some? ==> emitted == old(emitted) + [chunk] && Caches(ParseSample(chunk))
      ensures ParseSample(chunk).None? ==> unchanged(this)
      ensures connected == old(connected) && session == old(session) && trace == old(trace)
      ensures Valid()
    {
      var parsed := ParseSample(chunk);
      if parsed.Some? {
        var s := parsed.value;
        currentUptime := Some(s.uptime);
        cpuUsage := Some(s.cpu);
        memUsage := Some(s.mem);
        diskUsage := Some(s.disk);
        processList := Some(s.processes);
        emitted := emitted + [chunk];
        samples := samples + [s];
      }
    }

    /**
     * The polling command could not be started, or its channel ended: both
     * call `stop()` without a callback, which throws when not connected.
     */
    method OnChannelClosed() returns (fault: Option<Fault>)
      requires Valid() && session.Some? && session.value.commands > 0
      modifies this`trace, this`session
      ensures old(connected) ==> fault == None && trace == old(trace) + [Ended]
      ensures old(connected) ==> session == Some(old(session.value).(endListeners := old(session.value.endListeners) + [StopWrapper(None)]))
      ensures !old(connected) ==> fault == Some(NotAFunction) && trace == old(trace) && session == old(session)
      ensures connected == old(connected) && emitted == old(emitted)
      ensures Valid()
    {
      fault := Stop(None);
    }

    /**
     * `stop(cb)`: while connected, disconnects with a wrapper that calls `cb`
     * if there is one; otherwise calls `cb` at once without touching the
     * connection, or throws when there is no `cb`.
     */
    method Stop(cb: Option<nat>) returns (fault: Option<Fault>)
      requires Valid()
      modifies this`trace, this`session
      ensures old(connected) ==> fault == None && trace == old(trace) + [Ended]
      ensures old(connected) ==> session == Some(old(session.value).(endListeners := old(session.value.endListeners) + [StopWrapper(cb)]))
      ensures !old(connected) && cb.Some? ==> fault == None && trace == old(trace) + [Invoked(cb.value, None)]
      ensures !old(connected) && cb.None? ==> fault == Some(NotAFunction) && trace == old(trace)
      ensures !old(connected) ==> session == old(session)
      ensures connected == old(connected) && emitted == old(emitted)
      ensures Valid()
    {
      if connected {
        fault := Disconnect(StopWrapper(cb));
      } else if cb.Some? {
        trace := trace + [Invoked(cb.value, None)];
        fault := None;
      } else {
        fault := Some(NotAFunction);
      }
    }

    /** `disconnect(cb)`: registers the listener on the connection's `end` and ends the connection. */
    method Disconnect(listener: EndListener) returns (fault: Option<Fault>)
      requires Valid()
      modifies this`trace, this`session
      ensures fault == None <==> old(session).Some?
      ensures fault == None ==> trace == old(trace) + [Ended]
      ensures fault == None ==> session == Some(old(session.value).(endListeners := old(session.value.endListeners) + [listener]))
      ensures fault != None ==> fault == Some(NoConnection) && trace == old(trace) && session == old(session)
      ensures connected == old(connected) && emitted == old(emitted)
      ensures Valid()
    {
      if session.None? {
        return Some(NoConnection);
      }
      session := Some(session.value.(endListeners := session.value.endListeners + [listener]));
      trace := trace + [Ended];
      fault := None;
    }

    /** `uptime()`: `null` unless connected, else the cached uptime text. */
    function Uptime(): (r: Reading<string>)
      reads this`connected, this`currentUptime
      ensures r.Unavailable? <==> !connected
      ensures r.Latest? ==> r.cached == currentUptime
    {
      Gate(connected, currentUptime)
    }

    /** `cpu()`: `null` unless connected, else the cached cpu field. */
    function Cpu(): (r: Reading<string>)
      reads this`connected, this`cpuUsage
      ensures r.Unavailable? <==> !connected
      ensures r.Latest? ==> r.cached == cpuUsage
    {
      Gate(connected, cpuUsage)
    }

    /** `mem()`: `null` unless connected, else the cached memory field. */
    function Mem(): (r: Reading<Option<string>>)
      reads this`connected, this`memUsage
      ensures r.Unavailable? <==> !connected
      ensures r.Latest? ==> r.cached == memUsage
    {
      Gate(connected, memUsage)
    }

    /** `disk()`: `null` unless connected, else the cached disk field. */
    function Disk(): (r: Reading<Option<string>>)
      reads this`connected, this`diskUsage
      ensures r.Unavailable? <==> !connected
      ensures r.Latest? ==> r.cached == diskUsage
    {
      Gate(connected, diskUsage)
    }

    /** `processes()`: `null` unless connected, else the cached process list. */
    function Processes(): (r: Reading<seq<ProcessEntry>>)
      reads this`connected, this`processList
      ensures r.Unavailable? <==> !connected
      ensures r.Latest? ==> r.cached == processList
    {
      Gate(connected, processList)
    }
  }

  /** While connected and before any update, every accessor reads undefined. */
  lemma ReadingsBeforeUpdates(r: Remote)
    requires r.Valid() && r.connected && r.emitted == []
    ensures r.Uptime() == Latest(None) && r.Cpu() == Latest(None)
    ensures r.Mem() == Latest(None) && r.Disk() == Latest(None) && r.Processes() == Latest(None)
  {
    assert r.samples == [];
  }

  /** While connected, every accessor reads the fields of the sample the latest update carries. */
  lemma ReadingsAfterUpdate(r: Remote)
    requires r.Valid() && r.connected && r.emitted != []
    ensures var sample := ParseSample(r.emitted[|r.emitted| - 1]);
      sample.Some?
      && r.Uptime() == Latest(Some(sample.value.uptime)) && r.Cpu() == Latest(Some(sample.value.cpu))
      && r.Mem() == Latest(Some(sample.value.mem)) && r.Disk() == Latest(Some(sample.value.disk))
      && r.Processes() == Latest(Some(sample.value.processes))
  {
    var last := |r.emitted| - 1;
    assert ParseSample(r.emitted[last]) == Some(r.samples[last]);
  }

  /** `stop` twice while disconnected: both callbacks run at once, in order, and the connection is never touched. */
  method StopTwiceWhileDisconnected(r: Remote, first: nat, second: nat)
    requires r.Valid() && !r.connected
    modifies r
    ensures r.trace == old(r.trace) + [Invoked(first, None), Invoked(second, None)]
    ensures !r.connected && r.session == old(r.session) && r.Valid()
  {
    var fault := r.Stop(Some(first));
    fault := r.Stop(Some(second));
  }

  /**
   * `stop` twice while connected, then `end`: the connection is ended twice,
   * the flag is cleared and both callbacks run after every earlier listener.
   */
  method StopTwiceThenEnd(r: Remote, first: nat, second: nat)
    requires r.Valid() && r.connected
    modifies r
    ensures r.trace == old(r.trace) + [Ended, Ended]
      + Fired(old(r.session.value.endListeners)) + [Invoked(first, None), Invoked(second, None)]
    ensures !r.connected && r.Valid()
  {
    ghost var listeners := r.session.value.endListeners;
    ghost var before := r.trace;
    var fault := r.Stop(Some(first));
    fault := r.Stop(Some(second));
    ghost var added := [StopWrapper(Some(first)), StopWrapper(Some(second))];
    assert r.session.value.endListeners == listeners + added;
    assert r.trace == before + [Ended, Ended];
    FiredAppend(listeners, added);
    assert Fired(added[1..]) == [Invoked(second, None)];
    assert Fired(added) == [Invoked(first, None), Invoked(second, None)];
    r.OnEnd();
  }

  /** The callbacks of two listener lists fire one list after the other. */
  lemma {:induction false} FiredAppend(front: seq<EndListener>, back: seq<EndListener>)
    ensures Fired(front + back) == Fired(front) + Fired(back)
  {
    if front == [] {
      assert front + back == back;
    } else {
      assert (front + back)[1..] == front[1..] + back;
      FiredAppend(front[1..], back);
    }
  }

  /**
   * `start` whose connection fails: the callback gets the error, no command
   * is run, the flag stays clear and every accessor returns `null`.
   */
  method StartThenError(r: Remote, cb: nat, err: string, foundKey: Option<string>, agent: Option<string>)
    requires r.Valid() && !r.connected
    modifies r
    ensures r.trace == old(r.trace) + [Opened(r.ConnectionOptions(foundKey, agent)), Invoked(cb, Some(err))]
    ensures !r.connected && r.Uptime() == Unavailable && r.Cpu() == Unavailable
    ensures r.Mem() == Unavailable && r.Disk() == Unavailable && r.Processes() == Unavailable
    ensures r.Valid()
  {
    r.Start(cb, foundKey, agent);
    r.OnError(err);
  }

  /**
   * `start` whose connection becomes ready: the callback is called without
   * an error, then the polling loop runs at the default interval.
   */
  method StartThenReady(r: Remote, cb: nat, foundKey: Option<string>, agent: Option<string>)
    requires r.Valid() && r.stats == Stats()
    modifies r
    ensures r.trace == old(r.trace) + [Opened(r.ConnectionOptions(foundKey, agent)), Invoked(cb, None),
      Executed(PollScript(DefaultInterval), true)]
    ensures r.connected && r.Valid()
  {
    r.Start(cb, foundKey, agent);
    r.OnReady();
  }
}
