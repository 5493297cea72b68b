/**
 * The connection target the `Remote` constructor derives from a host spec of the
 * form `[user@]host[:port]`, its options and the `USER` environment variable.
 */
module HostSpec {
  import opened Wrappers
  import opened Text

  /** A port as the caller or the spec gives it: spec text, or a number from the options. */
  datatype PortValue = PortText(text: string) | PortNumber(number: int)

  /** The constructor's options; the environment is given separately. */
  datatype Options = Options(user: Option<string>, port: Option<PortValue>, key: Option<string>, keyPath: Option<string>)

  /** The fields the constructor sets from the spec. */
  datatype Target = Target(user: Option<string>, port: PortValue, host: string)

  /** `host.match(/(\w+@)?([^:]+)/)` found nothing, so reading group 2 throws. */
  datatype SpecError = NoHostMatch

  const DefaultPort := PortNumber(22)

  /** JavaScript truthiness of an optional port: set, and neither `""` nor `0`. */
  predicate PortTruthy(p: Option<PortValue>)
  {
    p.Some? && match p.value
      case PortText(t) => t != ""
      case PortNumber(n) => n != 0
  }

  /** The length of the longest prefix of word characters. */
  function WordPrefix(s: string): (k: nat)
    ensures k <= |s|
    ensures forall i :: 0 <= i < k ==> IsWordChar(s[i])
    ensures k < |s| ==> !IsWordChar(s[k])
  {
    if |s| > 0 && IsWordChar(s[0]) then 1 + WordPrefix(s[1..]) else 0
  }

  /** The text up to the first `:` (the whole text when there is none). */
  function BeforeColon(s: string): (r: string)
    ensures r <= s && ':' !in r
    ensures |r| < |s| ==> s[|r|] == ':'
  {
    FirstPiece(s, ':');
    Split(s, ":")[0]
  }

  /**
   * Group 2 of the first match of `/(\w+@)?([^:]+)/`: the engine tries each start
   * position from the left; at a position it first tries `\w+@` followed by at
   * least one non-colon, then the non-colon run alone.
   */
  function HostMatch(spec: string): (host: Option<string>)
    ensures host.Some? <==> exists i :: 0 <= i < |spec| && spec[i] != ':'
    ensures host.Some? ==> host.value != "" && ':' !in host.value
  {
    if |spec| == 0 then None
    else if spec[0] == ':' then
      var host := HostMatch(spec[1..]);
      assert forall i :: 0 < i < |spec| ==> spec[1..][i - 1] == spec[i];
      host
    else
      var k := WordPrefix(spec);
      if 0 < k && k + 1 < |spec| && spec[k] == '@' && spec[k + 1] != ':' then Some(BeforeColon(spec[k + 1..]))
      else Some(BeforeColon(spec))
  }

  /**
   * The constructor's parsing: `user` is the text before the first `@`, else the
   * `user` option, else `$USER`; `port` is the text between the first and the
   * second `:`, else the `port` option, else 22; `host` is group 2 of the match.
   */
  function ParseTarget(spec: string, opts: Options, envUser: Option<string>): (r: Result<Target, SpecError>)
    ensures r.Failure? <==> forall i :: 0 <= i < |spec| ==> spec[i] == ':'
    ensures r.Success? ==> HostMatch(spec) == Some(r.value.host)
    ensures r.Success? ==> r.value.host != "" && ':' !in r.value.host
    ensures r.Success? && '@' in spec ==>
      r.value.user.Some? && r.value.user.value + "@" <= spec && '@' !in r.value.user.value
    ensures r.Success? && '@' !in spec ==> r.value.user == if Truthy(opts.user) then opts.user else envUser
    ensures r.Success? && ':' in spec ==> r.value.port.PortText? && PortBetweenColons(spec, r.value.port.text)
    ensures r.Success? && ':' !in spec ==> r.value.port == if PortTruthy(opts.port) then opts.port.value else DefaultPort
  {
    match HostMatch(spec)
    case None => Failure(NoHostMatch)
    case Some(host) =>
      var user := if '@' in spec then (UserPiece(spec); Some(Split(spec, "@")[0]))
                  else if Truthy(opts.user) then opts.user else envUser;
      var port := if ':' in spec then (SplitAtChar(spec, ':'); PortPiece(spec); PortText(Split(spec, ":")[1]))
                  else if PortTruthy(opts.port) then opts.port.value else DefaultPort;
      Success(Target(user, port, host))
  }

  /**
   * `t` is the text between the first `:` of `spec` and the second (or the
   * end of `spec` when there is no second).
   */
  predicate PortBetweenColons(spec: string, t: string)
  {
    var start := |BeforeColon(spec)| + 1;
    && BeforeColon(spec) + ":" + t <= spec
    && ':' !in t
    && (start + |t| < |spec| ==> spec[start + |t|] == ':')
  }

  /** The first piece of a split on `@`, when there is an `@`, is the text before the first one. */
  lemma UserPiece(spec: string)
    requires '@' in spec
    ensures var user := Split(spec, "@")[0];
      user + "@" <= spec && '@' !in user
  {
    FirstPiece(spec, '@');
    var user := Split(spec, "@")[0];
  }

  /** The second piece of a split on `:`, when there is a `:`, lies between the first two. */
  lemma PortPiece(spec: string)
    requires ':' in spec
    ensures |Split(spec, ":")| >= 2 && PortBetweenColons(spec, Split(spec, ":")[1])
  {
    var before := BeforeColon(spec);
    var rest := spec[|before| + 1..];
    assert spec == before + ":" + rest;
    SplitCut(before, ":", rest);
    FirstPiece(rest, ':');
    var t := Split(rest, ":")[0];
    assert Split(spec, ":")[1] == t;
    assert before + ":" + t <= spec by {
      assert t <= rest;
    }
    if |before| + 1 + |t| < |spec| {
      assert spec[|before| + 1 + |t|] == rest[|t|];
    }
  }

  /** The optional `:port` at the end of a spec. */
  function PortSuffix(port: Option<string>): string
  {
    if port.Some? then ":" + port.value else ""
  }

  /** The spec text for a target: `[user@]host[:port]`. */
  function SpecText(user: Option<string>, host: string, port: Option<string>): string
  {
    (if user.Some? then user.value + "@" else "") + host + PortSuffix(port)
  }

  /** A user part the regular expression's `\w+@` can consume. */
  predicate IsWordUser(user: string)
  {
    user != "" && forall i :: 0 <= i < |user| ==> IsWordChar(user[i])
  }

  /** The preconditions of a well-formed `[user@]host[:port]` spec. */
  predicate WellFormedParts(user: Option<string>, host: string, port: Option<string>)
  {
    (user.Some? ==> IsWordUser(user.value)) &&
    host != "" && '@' !in host && ':' !in host &&
    (port.Some? ==> ':' !in port.value && '@' !in port.value)
  }

  /** Before an optional `:port`, the text up to the first colon is the colon-free part. */
  lemma BeforePort(before: string, port: Option<string>)
    requires ':' !in before
    ensures BeforeColon(before + PortSuffix(port)) == before
  {
    if port.Some? {
      assert Split(before + ":" + port.value, ":")[0] == before by {
        SplitCut(before, ":", port.value);
      }
      assert before + PortSuffix(port) == before + ":" + port.value;
    } else {
      assert Split(before, ":") == [before] by {
        SplitWhole(before, ":");
      }
      assert before + PortSuffix(port) == before;
    }
  }

  /** Without an `@`, the match starts at the first character and stops at the first colon. */
  lemma HostWithoutUser(spec: string)
    requires spec != "" && spec[0] != ':' && '@' !in spec
    ensures HostMatch(spec) == Some(BeforeColon(spec))
  {
    var k := WordPrefix(spec);
    assert k < |spec| ==> spec[k] != '@';
  }

  /** After a `\w+@` user, the match is the rest up to its first colon. */
  lemma HostAfterWordUser(user: string, rest: string)
    requires IsWordUser(user) && rest != "" && rest[0] != ':'
    ensures HostMatch(user + "@" + rest) == Some(BeforeColon(rest))
  {
    var spec := user + "@" + rest;
    WordUserPrefix(user, rest);
    assert spec[0] == user[0] && spec[|user|] == '@' && spec[|user| + 1] == rest[0];
    assert spec[|user| + 1..] == rest;
  }

  /** The host of a well-formed spec is its host part. */
  lemma HostOfSpecText(user: Option<string>, host: string, port: Option<string>)
    requires WellFormedParts(user, host, port)
    ensures HostMatch(SpecText(user, host, port)) == Some(host)
  {
    var spec := SpecText(user, host, port);
    var rest := host + PortSuffix(port);
    assert spec == if user.Some? then user.value + "@" + rest else rest by {
      if user.Some? {
        assert spec == user.value + "@" + rest;
      } else {
        assert "" + host == host;
      }
    }
    assert BeforeColon(rest) == host && rest != "" && rest[0] != ':' by {
      BeforePort(host, port);
      assert rest[0] == host[0];
    }
    if user.Some? {
      HostAfterWordUser(user.value, rest);
    } else {
      assert '@' !in rest;
      HostWithoutUser(rest);
    }
  }

  /** The user of a well-formed spec is its user part, when it has one. */
  lemma UserOfSpecText(user: Option<string>, host: string, port: Option<string>)
    requires WellFormedParts(user, host, port)
    ensures '@' in SpecText(user, host, port) <==> user.Some?
    ensures user.Some? ==> Split(SpecText(user, host, port), "@")[0] == user.value
  {
    var spec := SpecText(user, host, port);
    var tail := if port.Some? then ":" + port.value else "";
    if user.Some? {
      var u := user.value;
      assert '@' !in u by {
        assert forall i :: 0 <= i < |u| ==> IsWordChar(u[i]);
      }
      assert spec == u + "@" + (host + tail);
      SplitCut(u, "@", host + tail);
    } else {
      assert spec == host + tail;
    }
  }
  /** After a colon-free prefix, the optional `:port` is the second colon-separated piece. */
  lemma PortAfter(before: string, port: Option<string>)
    requires ':' !in before && (port.Some? ==> ':' !in port.value)
    ensures var spec := before + (if port.Some? then ":" + port.value else "");
      (':' in spec <==> port.Some?) &&
      (port.Some? ==> |Split(spec, ":")| >= 2 && Split(spec, ":")[1] == port.value)
  {
    var spec := before + (if port.Some? then ":" + port.value else "");
    if port.Some? {
      assert spec == before + ":" + port.value;
      assert spec[|before|] == ':';
      SplitCut(before, ":", port.value);
      SplitWhole(port.value, ":");
    } else {
      assert spec == before;
    }
  }

  /** The port of a well-formed spec is its port part, when it has one. */
  lemma PortOfSpecText(user: Option<string>, host: string, port: Option<string>)
    requires WellFormedParts(user, host, port)
    ensures ':' in SpecText(user, host, port) <==> port.Some?
    ensures port.Some? ==> |Split(SpecText(user, host, port), ":")| >= 2 &&
                           Split(SpecText(user, host, port), ":")[1] == port.value
  {
    var before := (if user.Some? then user.value + "@" else "") + host;
    assert ':' !in before by {
      if user.Some? {
        assert forall i :: 0 <= i < |user.value| ==> IsWordChar(user.value[i]);
      }
    }
    PortAfter(before, port);
  }

  /**
   * Parsing a well-formed spec gives back its parts: a word-character user, a
   * host holding neither `@` nor `:`, and a port holding neither. The options
   * and `$USER` fill in only what the spec leaves out.
   */
  lemma ParseSpecText(user: Option<string>, host: string, port: Option<string>, opts: Options, envUser: Option<string>)
    requires WellFormedParts(user, host, port)
    ensures ParseTarget(SpecText(user, host, port), opts, envUser) == Success(Target(
      if user.Some? then user else if Truthy(opts.user) then opts.user else envUser,
      if port.Some? then PortText(port.value) else if PortTruthy(opts.port) then opts.port.value else DefaultPort,
      host))
  {
    HostOfSpecText(user, host, port);
    UserOfSpecText(user, host, port);
    PortOfSpecText(user, host, port);
  }

  /** The word prefix of `user@rest` is exactly the user. */
  lemma {:induction false} WordUserPrefix(user: string, rest: string)
    requires IsWordUser(user)
    ensures WordPrefix(user + "@" + rest) == |user|
    decreases |user|
  {
    var s := user + "@" + rest;
    if |user| > 1 {
      assert s[1..] == user[1..] + "@" + rest;
      WordUserPrefix(user[1..], rest);
    } else {
      assert s[1..] == "@" + rest;
    }
  }

  /** The preconditions of a `user@host[:port]` spec whose user has a character outside `\w`. */
  predicate NonWordUserParts(user: string, host: string, port: Option<string>)
  {
    user != "" && '@' !in user && ':' !in user && !IsWordUser(user) && WellFormedParts(None, host, port)
  }

  /** A character outside `\w` before any `@`: `\w+@` cannot match at the front, so group 2 starts there. */
  lemma HostFromFront(spec: string, j: nat)
    requires j < |spec| && !IsWordChar(spec[j]) && spec[0] != ':'
    requires forall i :: 0 <= i <= j ==> spec[i] != '@'
    ensures HostMatch(spec) == Some(BeforeColon(spec))
  {
    var k := WordPrefix(spec);
    assert k <= j;
  }

  /** The match cannot use `\w+@`, so group 2 starts at the front of the spec. */
  lemma NonWordUserHost(user: string, host: string, port: Option<string>)
    requires NonWordUserParts(user, host, port)
    ensures HostMatch(SpecText(Some(user), host, port)) == Some(user + "@" + host)
  {
    var front := user + "@" + host;
    var spec := SpecText(Some(user), host, port);
    assert spec == front + PortSuffix(port);
    assert ':' !in front;
    BeforePort(front, port);
    var j :| 0 <= j < |user| && !IsWordChar(user[j]);
    assert spec[0] == user[0] && spec[j] == user[j];
    assert forall i :: 0 <= i <= j ==> spec[i] == user[i];
    HostFromFront(spec, j);
  }

  /** The user of such a spec is the text before its `@`. */
  lemma NonWordUserUser(user: string, host: string, port: Option<string>)
    requires NonWordUserParts(user, host, port)
    ensures '@' in SpecText(Some(user), host, port)
    ensures Split(SpecText(Some(user), host, port), "@")[0] == user
  {
    var spec := SpecText(Some(user), host, port);
    assert spec == user + "@" + (host + PortSuffix(port));
    assert spec[|user|] == '@';
    SplitCut(user, "@", host + PortSuffix(port));
  }

  /** The port of such a spec is its port part, when it has one. */
  lemma NonWordUserPort(user: string, host: string, port: Option<string>)
    requires NonWordUserParts(user, host, port)
    ensures ':' in SpecText(Some(user), host, port) <==> port.Some?
    ensures port.Some? ==> |Split(SpecText(Some(user), host, port), ":")| >= 2 &&
                           Split(SpecText(Some(user), host, port), ":")[1] == port.value
  {
    assert SpecText(Some(user), host, port) == (user + "@" + host) + (if port.Some? then ":" + port.value else "");
    PortAfter(user + "@" + host, port);
  }

  /**
   * A user part with a character outside `\w` (a dot, say) is not consumed by
   * `\w+@`, so it stays at the front of the host, while `user` still takes it.
   */
  lemma NonWordUserStaysInHost(user: string, host: string, port: Option<string>, opts: Options, envUser: Option<string>)
    requires NonWordUserParts(user, host, port)
    ensures ParseTarget(SpecText(Some(user), host, port), opts, envUser) == Success(Target(
      Some(user),
      if port.Some? then PortText(port.value) else if PortTruthy(opts.port) then opts.port.value else DefaultPort,
      user + "@" + host))
  {
    NonWordUserHost(user, host, port);
    NonWordUserUser(user, host, port);
    NonWordUserPort(user, host, port);
  }
}
