/**
 * What the polling loop's last step, `echo $host_uptime == $host_cpu == ...`,
 * prints. Each capture is expanded unquoted, so the shell splits it into words
 * at the characters of the default `IFS`: runs of them separate words and
 * leading or trailing ones vanish, and a capture with no word vanishes
 * altogether. `echo` then prints its arguments separated by single spaces.
 */
module ShellEcho {
  import opened Text

  /** The characters of the default `IFS`: space, tab and newline. */
  predicate IsIfs(c: char)
  {
    c == ' ' || c == '\t' || c == '\n'
  }

  /** A text cut at every `IFS` character; adjacent ones leave empty pieces between them. */
  function Cuts(t: string): (pieces: seq<string>)
    ensures |pieces| >= 1
  {
    if t == "" then [""]
    else if IsIfs(t[0]) then [""] + Cuts(t[1..])
    else
      var rest := Cuts(t[1..]);
      [[t[0]] + rest[0]] + rest[1..]
  }

  /** The non-empty pieces, in order. */
  function NonEmpty(pieces: seq<string>): seq<string>
  {
    if pieces == [] then []
    else (if pieces[0] == "" then [] else [pieces[0]]) + NonEmpty(pieces[1..])
  }

  /** Field splitting of an unquoted expansion: the words it becomes. */
  function Words(t: string): seq<string>
  {
    NonEmpty(Cuts(t))
  }

  /** The arguments the echo step receives: each capture's words, with `==` between captures. */
  function EchoArgs(captures: seq<string>): seq<string>
  {
    if |captures| == 0 then []
    else if |captures| == 1 then Words(captures[0])
    else Words(captures[0]) + ["=="] + EchoArgs(captures[1..])
  }

  /** What `echo` prints before its line end: its arguments separated by single spaces. */
  function Echo(args: seq<string>): string
  {
    Join(args, " ")
  }

  /**
   * A capture that word splitting leaves as it is: not empty, no tab or
   * newline, no space at either end and never two spaces in a row.
   */
  predicate PrintsAsIs(t: string)
  {
    t != "" && t[0] != ' ' && t[|t| - 1] != ' '
    && (forall i :: 0 <= i < |t| ==> t[i] != '\t' && t[i] != '\n')
    && Free(t, "  ")
  }

  /** Without tabs and newlines, cutting at `IFS` characters is splitting on single spaces. */
  lemma {:induction false} CutsAreSpaceSplit(t: string)
    requires forall i :: 0 <= i < |t| ==> t[i] != '\t' && t[i] != '\n'
    ensures Cuts(t) == Split(t, " ")
    decreases |t|
  {
    if t != "" {
      assert t[..1] == [t[0]];
      CutsAreSpaceSplit(t[1..]);
    }
  }

  /** A text that prints as it is splits on spaces into non-empty pieces only. */
  lemma {:induction false} SpacedPiecesNonEmpty(t: string)
    requires PrintsAsIs(t)
    ensures NonEmpty(Split(t, " ")) == Split(t, " ")
    decreases |t|
  {
    FirstPiece(t, ' ');
    var head := Split(t, " ")[0];
    if |head| == |t| {
      assert head == t;
      SplitWhole(t, " ");
    } else {
      var rest := t[|head| + 1..];
      assert |head| > 0 by {
        assert t[|head|] == ' ';
      }
      assert t == head + " " + rest by {
        assert t[..|head|] == head;
      }
      SplitCut(head, " ", rest);
      assert |head| + 1 < |t|;
      AfterSpace(t, |head|);
      SpacedPiecesNonEmpty(rest);
      var pieces := [head] + Split(rest, " ");
      assert pieces[1..] == Split(rest, " ");
    }
  }

  /** What follows a space inside a text that prints as it is prints as it is too. */
  lemma AfterSpace(t: string, k: nat)
    requires PrintsAsIs(t) && k + 1 < |t| && t[k] == ' '
    ensures PrintsAsIs(t[k + 1..])
  {
    var rest := t[k + 1..];
    assert !OccursAt(t, "  ", k);
    assert t[k..k + 2][1] == rest[0];
    assert forall i :: 0 <= i < |rest| ==> rest[i] == t[k + 1 + i];
    forall i: nat | i <= |rest|
      ensures !OccursAt(rest, "  ", i)
    {
      assert !OccursAt(t, "  ", k + 1 + i);
      if i + 2 <= |rest| {
        assert rest[i..i + 2] == t[k + 1 + i..k + 3 + i];
      }
    }
  }

  /** The words of a capture that prints as it is are its single-space-separated pieces. */
  lemma WordsOfPrinted(t: string)
    requires PrintsAsIs(t)
    ensures Words(t) == Split(t, " ")
    ensures Words(t) != [] && Echo(Words(t)) == t
  {
    CutsAreSpaceSplit(t);
    SpacedPiecesNonEmpty(t);
    JoinSplit(t, " ");
  }

  /** Joining two non-empty lists is joining each and putting the separator between them. */
  lemma {:induction false} JoinAppend(a: seq<string>, b: seq<string>, sep: string)
    requires |a| > 0 && |b| > 0
    ensures Join(a + b, sep) == Join(a, sep) + sep + Join(b, sep)
    decreases |a|
  {
    assert (a + b)[0] == a[0];
    if |a| == 1 {
      assert (a + b)[1..] == b;
    } else {
      assert (a + b)[1..] == a[1..] + b;
      JoinAppend(a[1..], b, sep);
    }
  }

  /** A leading capture that prints as it is comes out followed by ` == ` and the rest of the line. */
  lemma EchoFront(capture: string, rest: seq<string>)
    requires PrintsAsIs(capture) && EchoArgs(rest) != []
    ensures EchoArgs([capture] + rest) == Words(capture) + ["=="] + EchoArgs(rest)
    ensures Echo(EchoArgs([capture] + rest)) == capture + " == " + Echo(EchoArgs(rest))
  {
    var captures := [capture] + rest;
    assert captures[1..] == rest;
    assert rest != [];
    WordsOfPrinted(capture);
    JoinAppend(Words(capture), ["=="], " ");
    JoinAppend(Words(capture) + ["=="], EchoArgs(rest), " ");
  }

  /** When every capture prints as it is, the echo step prints the captures joined by ` == `. */
  lemma {:induction false} EchoOfPrinted(captures: seq<string>)
    requires |captures| > 0
    requires forall i :: 0 <= i < |captures| ==> PrintsAsIs(captures[i])
    ensures EchoArgs(captures) != []
    ensures Echo(EchoArgs(captures)) == Join(captures, " == ")
    decreases |captures|
  {
    if |captures| == 1 {
      WordsOfPrinted(captures[0]);
    } else {
      var rest := captures[1..];
      EchoOfPrinted(rest);
      assert captures == [captures[0]] + rest;
      EchoFront(captures[0], rest);
      WordsOfPrinted(captures[0]);
    }
  }

  /** An empty capture has no words. */
  lemma NoWords()
    ensures Words("") == []
  {
    assert Cuts("") == [""];
    assert [""][1..] == [];
  }

  /** A capture with no word leaves no argument: its neighbouring `==` end up side by side. */
  lemma EmptyCaptureVanishes(rest: seq<string>)
    requires |rest| > 0
    ensures EchoArgs([""] + rest) == ["=="] + EchoArgs(rest)
  {
    var captures := [""] + rest;
    assert captures[1..] == rest;
    NoWords();
    assert [] + ["=="] + EchoArgs(rest) == ["=="] + EchoArgs(rest);
  }

  /** An `==` argument ahead of others comes out as `== ` before them. */
  lemma LeadingEquals(later: seq<string>)
    requires later != []
    ensures Echo(["=="] + later) == "== " + Echo(later)
  {
    assert (["=="] + later)[1..] == later;
  }

  /** An empty capture ahead of others leaves `== ` at the front of their echo. */
  lemma EchoSkipsLeadingEmpty(rest: seq<string>)
    requires |rest| > 0 && EchoArgs(rest) != []
    ensures EchoArgs([""] + rest) != []
    ensures Echo(EchoArgs([""] + rest)) == "== " + Echo(EchoArgs(rest))
  {
    EmptyCaptureVanishes(rest);
    LeadingEquals(EchoArgs(rest));
  }

  /**
   * An empty capture after a leading capture that prints as it is leaves two
   * `==` side by side, a single space between them.
   */
  lemma EchoSkipsEmpty(first: string, rest: seq<string>)
    requires PrintsAsIs(first) && |rest| > 0 && EchoArgs(rest) != []
    ensures Echo(EchoArgs([first] + ([""] + rest))) == first + " == " + ("== " + Echo(EchoArgs(rest)))
  {
    EchoSkipsLeadingEmpty(rest);
    EchoFront(first, [""] + rest);
  }

  /** An empty last capture leaves the line ending in ` ==`. */
  lemma {:induction false} EchoEndsEmpty(captures: seq<string>)
    requires |captures| > 0
    requires forall i :: 0 <= i < |captures| ==> PrintsAsIs(captures[i])
    ensures EchoArgs(captures + [""]) != []
    ensures Echo(EchoArgs(captures + [""])) == Join(captures, " == ") + " =="
    decreases |captures|
  {
    var all := captures + [""];
    assert all[1..] == captures[1..] + [""];
    WordsOfPrinted(captures[0]);
    if |captures| == 1 {
      assert EchoArgs(all[1..]) == [] by {
        NoWords();
      }
      assert EchoArgs(all) == Words(captures[0]) + ["=="];
      JoinAppend(Words(captures[0]), ["=="], " ");
      assert Join(captures, " == ") == captures[0];
    } else {
      EchoEndsEmpty(captures[1..]);
      assert all == [captures[0]] + all[1..];
      EchoFront(captures[0], all[1..]);
    }
  }
}
