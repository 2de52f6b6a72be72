/** Text as CRLF-terminated lines: splitting it where the lines break and joining it again. */
module MimeLines {
  import opened Text

  const CRLF: string := "\r\n"

  /** The lines of a text: what stands between its line breaks. */
  function Lines(s: string): (ls: seq<string>)
    ensures ls != []
  {
    if s == "" then [""]
    else if HasPrefix(s, CRLF) then [""] + Lines(s[2..])
    else
      var rest := Lines(s[1..]);
      [[s[0]] + rest[0]] + rest[1..]
  }

  function JoinLines(ls: seq<string>): string {
    if ls == [] then ""
    else if |ls| == 1 then ls[0]
    else ls[0] + CRLF + JoinLines(ls[1..])
  }

  /** Without a line break inside, a text prints on one line. */
  predicate OneLine(s: string) { forall i :: 0 <= i < |s| ==> !BreakAt(s, i) }

  predicate BreakAt(s: string, i: nat) { i + 1 < |s| && s[i] == '\r' && s[i + 1] == '\n' }

  ghost predicate OneLines(ls: seq<string>) { forall i :: 0 <= i < |ls| ==> OneLine(ls[i]) }

  /** Lines with a line break after each. */
  function Terminated(ls: seq<string>): string {
    if ls == [] then "" else ls[0] + CRLF + Terminated(ls[1..])
  }

  lemma JoinCons(x: string, ls: seq<string>)
    requires ls != []
    ensures JoinLines([x] + ls) == x + CRLF + JoinLines(ls)
  {
    assert ([x] + ls)[1..] == ls;
  }

  lemma JoinPrepend(c: char, ls: seq<string>)
    requires ls != []
    ensures JoinLines([[c] + ls[0]] + ls[1..]) == [c] + JoinLines(ls)
  {
    var all := [[c] + ls[0]] + ls[1..];
    assert all[1..] == ls[1..];
    if |ls| > 1 {
      assert [c] + (ls[0] + CRLF + JoinLines(ls[1..])) == ([c] + ls[0]) + CRLF + JoinLines(ls[1..]);
    }
  }

  lemma {:induction false} JoinOfLines(s: string)
    ensures JoinLines(Lines(s)) == s
  {
    hide JoinLines;
    if s == "" {
      JoinSingle("");
    } else if HasPrefix(s, CRLF) {
      JoinOfLines(s[2..]);
      JoinCons("", Lines(s[2..]));
      assert s == s[..2] + s[2..];
    } else {
      JoinOfLines(s[1..]);
      JoinPrepend(s[0], Lines(s[1..]));
    }
  }

  lemma JoinSingle(s: string)
    ensures JoinLines([s]) == s
  {}

  lemma LinesBreak(s: string)
    requires HasPrefix(s, CRLF)
    ensures Lines(s) == [""] + Lines(s[2..])
  {}

  lemma LinesChar(s: string)
    requires s != "" && !HasPrefix(s, CRLF)
    ensures Lines(s) == [[s[0]] + Lines(s[1..])[0]] + Lines(s[1..])[1..]
  {}

  /** A line break separates, whatever stands before it. */
  lemma {:induction false} LinesAtBreak(a: string, b: string)
    ensures Lines(a + CRLF + b) == Lines(a) + Lines(b)
  {
    hide Lines;
    var s := a + CRLF + b;
    PrefixAtBreak(a, b);
    if a == "" {
      LinesBreak(s);
      LinesEmpty();
    } else if HasPrefix(a, CRLF) {
      LinesAtBreak(a[2..], b);
      LinesBreak(s);
      LinesBreak(a);
      Assoc([""], Lines(a[2..]), Lines(b));
    } else {
      LinesAtBreak(a[1..], b);
      LinesChar(s);
      LinesChar(a);
      LongerTail([a[0]], Lines(a[1..]), Lines(b));
    }
  }

  lemma LinesEmpty()
    ensures Lines("") == [""]
  {}

  lemma LongerTail(c: string, la: seq<string>, lb: seq<string>)
    requires la != []
    ensures [c + (la + lb)[0]] + (la + lb)[1..] == ([c + la[0]] + la[1..]) + lb
  {
    assert (la + lb)[1..] == la[1..] + lb;
  }

  /** A break cannot be made up by the last character before a printed one. */
  lemma PrefixAtBreak(a: string, b: string)
    ensures var s := a + CRLF + b;
            if a == "" then HasPrefix(s, CRLF) && s[2..] == b
            else if HasPrefix(a, CRLF) then HasPrefix(s, CRLF) && s[2..] == a[2..] + CRLF + b
            else !HasPrefix(s, CRLF) && s[0] == a[0] && s[1..] == a[1..] + CRLF + b
  {
    var s := a + CRLF + b;
    if |a| >= 2 {
      assert s[..2] == a[..2];
    } else if |a| == 1 {
      assert s[..2][1] == CRLF[0] != CRLF[1];
    } else {
      assert s[..2] == CRLF;
    }
  }

  lemma BreakIsPrefix(s: string)
    ensures HasPrefix(s, CRLF) <==> BreakAt(s, 0)
  {
    if |s| >= 2 {
      assert s[..2][0] == s[0] && s[..2][1] == s[1];
    }
  }

  lemma OneLineSlice(s: string, i: nat, j: nat)
    requires OneLine(s) && i <= j <= |s|
    ensures OneLine(s[i..j])
  {
    assert forall k :: 0 <= k < j - i && BreakAt(s[i..j], k) ==> BreakAt(s, i + k);
  }

  /** No break comes about where two texts meet, unless one half of it is on each side. */
  lemma OneLineConcat(a: string, b: string)
    requires OneLine(a) && OneLine(b)
    requires a == "" || b == "" || a[|a| - 1] != '\r' || b[0] != '\n'
    ensures OneLine(a + b)
  {
    forall i | 0 <= i < |a + b| ensures !BreakAt(a + b, i) {
      if i + 1 < |a| {
        assert !BreakAt(a, i);
      } else if i >= |a| {
        assert !BreakAt(b, i - |a|);
      }
    }
  }

  lemma {:induction false} PlainLine(s: string)
    requires OneLine(s)
    ensures Lines(s) == [s]
  {
    if s != "" {
      BreakIsPrefix(s);
      OneLineSlice(s, 1, |s|);
      assert s[1..] == s[1..|s|];
      PlainLine(s[1..]);
      LinesChar(s);
      assert [s[0]] + s[1..] == s;
    }
  }

  /** What stands between line breaks holds none. */
  lemma {:induction false} LinesAreOneLine(s: string)
    ensures OneLines(Lines(s))
  {
    if s == "" {
    } else if HasPrefix(s, CRLF) {
      LinesAreOneLine(s[2..]);
      assert OneLine("");
    } else {
      var c, rest := s[0], Lines(s[1..]);
      LinesAreOneLine(s[1..]);
      JoinOfLines(s[1..]);
      assert OneLine(rest[0]);
      NotSplit(s, rest[0]);
      assert OneLine([c] + rest[0]);
    }
  }

  lemma NotSplit(s: string, line: string)
    requires s != "" && !HasPrefix(s, CRLF) && OneLine(line) && HasPrefix(s[1..], line)
    ensures OneLine([s[0]] + line)
  {
    BreakIsPrefix(s);
    assert line != "" ==> s[1] == s[1..][..|line|][0];
    OneLineConcat([s[0]], line);
  }

  /** Text without a carriage return is put before the first line. */
  lemma {:induction false} LinesPrepend(p: string, s: string)
    requires '\r' !in p
    ensures Lines(p + s) == [p + Lines(s)[0]] + Lines(s)[1..]
  {
    hide Lines;
    if p == "" {
      assert p + s == s && p + Lines(s)[0] == Lines(s)[0];
    } else {
      var t := p + s;
      LinesPrepend(p[1..], s);
      assert t[1..] == p[1..] + s && t[0] == p[0];
      assert |t| >= 2 ==> t[..2][0] != CRLF[0];
      LinesChar(t);
      assert [p[0]] + (p[1..] + Lines(s)[0]) == p + Lines(s)[0];
    }
  }

  /** A text with a line break inside ends its first line early. */
  lemma {:induction false} FirstLineShorter(s: string, t: string)
    requires !OneLine(s)
    ensures |Lines(s + t)[0]| < |s|
  {
    BreakIsPrefix(s);
    if HasPrefix(s, CRLF) {
      assert (s + t)[..2] == s[..2];
    } else {
      var i :| 0 <= i < |s| && BreakAt(s, i);
      assert BreakAt(s[1..], i - 1);
      FirstLineShorter(s[1..], t);
      assert (s + t)[1..] == s[1..] + t && (s + t)[..2] == s[..2];
      LinesChar(s + t);
    }
  }

  lemma {:induction false} LinesTerminated(ls: seq<string>, rest: string)
    requires OneLines(ls)
    ensures Lines(Terminated(ls) + rest) == ls + Lines(rest)
  {
    hide Lines;
    if ls == [] {
      assert "" + rest == rest;
    } else {
      LinesTerminated(ls[1..], rest);
      LinesAtBreak(ls[0], Terminated(ls[1..]) + rest);
      PlainLine(ls[0]);
      Assoc(ls[0] + CRLF, Terminated(ls[1..]), rest);
      Assoc([ls[0]], ls[1..], Lines(rest));
      assert [ls[0]] + ls[1..] == ls;
    }
  }

  lemma {:induction false} TerminatedConcat(a: seq<string>, b: seq<string>)
    ensures Terminated(a + b) == Terminated(a) + Terminated(b)
  {
    if a == [] {
      assert a + b == b;
    } else {
      assert (a + b)[1..] == a[1..] + b;
      TerminatedConcat(a[1..], b);
      Assoc(a[0] + CRLF, Terminated(a[1..]), Terminated(b));
    }
  }

  lemma TerminatedSnoc(ls: seq<string>, x: string)
    ensures Terminated(ls + [x]) == Terminated(ls) + (x + CRLF)
  {
    TerminatedConcat(ls, [x]);
    TerminatedOne(x);
  }

  lemma TerminatedOne(a: string)
    ensures Terminated([a]) == a + CRLF
  {
    assert [a][1..] == [];
  }

  /** The lines of a printed text up to one that may hold line breaks. */
  lemma LinesUpTo(head: seq<string>, last: string, tail: seq<string>, rest: string)
    requires OneLines(head)
    ensures Lines(Terminated(head + ([last] + tail)) + rest) == head + Lines(last + CRLF + (Terminated(tail) + rest))
  {
    hide OneLine, Lines, Terminated;
    TerminatedConcat(head, [last] + tail);
    TerminatedConcat([last], tail);
    TerminatedOne(last);
    LinesTerminated(head, last + CRLF + (Terminated(tail) + rest));
    Assoc(last + CRLF, Terminated(tail), rest);
    Assoc(Terminated(head), last + CRLF + Terminated(tail), rest);
  }

  /** Joining fewer lines gives a shorter text, unless what is cut is one empty first line. */
  lemma {:induction false} JoinShorter(ls: seq<string>, n: nat)
    requires n < |ls| && ls[n] != ""
    ensures |JoinLines(ls[..n])| < |JoinLines(ls)|
  {
    if n == 0 {
      assert ls[..0] == [];
      if |ls| > 1 {
        assert |JoinLines(ls)| >= |ls[0]| + 2;
      }
    } else {
      JoinShorter(ls[1..], n - 1);
      assert ls[..n][1..] == ls[1..][..n - 1];
      assert ls[..n][0] == ls[0];
      if n == 1 {
        assert ls[..1] == [ls[0]];
      }
    }
  }
}
