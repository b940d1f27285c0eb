/** The command-line parser of the shell: splitting a typed line into a command
    name and its arguments, and joining a path argument onto the working directory. */
module CommandParser {
  import opened Text

  /** The tokenizer's state between two characters. */
  datatype Lexer = Lexer(args: seq<string>, current: string, inQuotes: bool, escapeNext: bool)

  const Start := Lexer([], "", false, false)

  /** What the tokenizer does with one character. */
  function Step(st: Lexer, ch: char): Lexer {
    if st.escapeNext then st.(current := st.current + [ch], escapeNext := false)
    else if ch == '\\' then st.(escapeNext := true)
    else if ch == '"' || ch == '\'' then st.(inQuotes := !st.inQuotes)
    else if ch == ' ' && !st.inQuotes then
      (if st.current != "" then st.(args := st.args + [st.current], current := "") else st)
    else st.(current := st.current + [ch])
  }

  /** The state after feeding `s`, character by character, from `st`. */
  function Scan(st: Lexer, s: string): Lexer
    decreases |s|
  {
    if |s| == 0 then st else Step(Scan(st, s[..|s| - 1]), s[|s| - 1])
  }

  /** The pending argument is pushed at the end of the input. */
  function Finish(st: Lexer): seq<string> {
    if st.current != "" then st.args + [st.current] else st.args
  }

  /** The tokens of a typed line. */
  function Tokens(s: string): seq<string> {
    Finish(Scan(Start, Trim(s)))
  }

  datatype Command = Command(command: string, args: seq<string>)

  /** The command is the first token and the arguments are the remaining ones;
      no token is ever empty, so an empty command has no arguments. */
  function Parse(s: string): (r: Command)
    ensures NoneEmpty(r.args)
    ensures r.command == "" ==> r.args == []
  {
    if Trim(s) == "" then Command("", [])
    else
      var toks := Tokens(s);
      TokensNonEmpty(s);
      if toks == [] then Command("", []) else Command(toks[0], toks[1..])
  }

  /** The parser's loop, character by character over the trimmed line. */
  method ParseCommand(commandString: string) returns (command: string, args: seq<string>)
    ensures Command(command, args) == Parse(commandString)
  {
    var trimmed := Trim(commandString);
    if trimmed == "" {
      return "", [];
    }
    args := [];
    var currentArg := "";
    var inQuotes := false;
    var escapeNext := false;
    for i := 0 to |trimmed|
      invariant Lexer(args, currentArg, inQuotes, escapeNext) == Scan(Start, trimmed[..i])
    {
      var ch := trimmed[i];
      ScanNext(trimmed, i);
      if escapeNext {
        currentArg := currentArg + [ch];
        escapeNext := false;
        continue;
      }
      if ch == '\\' {
        escapeNext := true;
        continue;
      }
      if ch == '"' || ch == '\'' {
        inQuotes := !inQuotes;
        continue;
      }
      if ch == ' ' && !inQuotes {
        if currentArg != "" {
          args := args + [currentArg];
          currentArg := "";
        }
        continue;
      }
      currentArg := currentArg + [ch];
    }
    assert trimmed[..|trimmed|] == trimmed;
    assert args + [currentArg] == Tokens(commandString) || args == Tokens(commandString);
    if currentArg != "" {
      args := args + [currentArg];
    }
    if |args| == 0 {
      command := "";
    } else {
      command := args[0];
      args := args[1..];
    }
  }

  /** Scanning one more character of `s` is one more step. */
  lemma ScanNext(s: string, i: nat)
    requires i < |s|
    ensures Scan(Start, s[..i + 1]) == Step(Scan(Start, s[..i]), s[i])
  {
    assert s[..i + 1][..i] == s[..i];
  }

  predicate NoneEmpty(xs: seq<string>) {
    forall k :: 0 <= k < |xs| ==> xs[k] != ""
  }

  /** Scanning never records an empty argument. */
  lemma {:induction false} ScanNonEmpty(s: string)
    ensures NoneEmpty(Scan(Start, s).args)
    decreases |s|
  {
    if |s| > 0 {
      ScanNonEmpty(s[..|s| - 1]);
      var before := Scan(Start, s[..|s| - 1]);
      var after := Scan(Start, s);
      assert after.args == before.args || (after.args == before.args + [before.current] && before.current != "");
    }
  }

  lemma TokensNonEmpty(s: string)
    ensures NoneEmpty(Tokens(s))
  {
    ScanNonEmpty(Trim(s));
  }

  /** A line made only of whitespace (or no characters at all) is the empty command. */
  lemma ParseBlank(s: string)
    requires forall k :: 0 <= k < |s| ==> IsJsWhitespace(s[k])
    ensures Parse(s) == Command("", [])
  {
    TrimMeaning(s);
  }

  /** Scanning `a` and then `b` is scanning `a + b`. */
  lemma {:induction false} ScanConcat(st: Lexer, a: string, b: string)
    ensures Scan(st, a + b) == Scan(Scan(st, a), b)
    decreases |b|
  {
    if |b| == 0 {
      assert a + b == a;
    } else {
      assert (a + b)[..|a + b| - 1] == a + b[..|b| - 1];
      ScanConcat(st, a, b[..|b| - 1]);
    }
  }

  /** No backslash and no quote character. */
  predicate Plain(s: string) {
    forall k :: 0 <= k < |s| ==> s[k] != '\\' && s[k] != '"' && s[k] != '\''
  }

  /** Without escapes or quotes the tokenizer is `split(' ')` keeping the empty pieces
      out of the recorded arguments: every piece but the last is recorded when non-empty,
      and the last is the pending argument. */
  lemma {:induction false} PlainScan(s: string)
    requires Plain(s)
    ensures var parts := SplitOn(s, ' ');
      Scan(Start, s) == Lexer(NonEmpty(parts[..|parts| - 1]), parts[|parts| - 1], false, false)
    decreases |s|
  {
    if |s| > 0 {
      var init, ch := s[..|s| - 1], s[|s| - 1];
      assert Plain(init) by {
        forall k | 0 <= k < |init| ensures init[k] != '\\' && init[k] != '"' && init[k] != '\'' {
          assert init[k] == s[k];
        }
      }
      PlainScan(init);
      var parts0 := SplitOn(init, ' ');
      var kept, last := parts0[..|parts0| - 1], parts0[|parts0| - 1];
      assert Scan(Start, s) == Step(Scan(Start, init), ch);
      assert s == init + [ch];
      SplitSnoc(init, ch, ' ');
      assert parts0 == kept + [last];
      PlainStep(kept, last, ch);
    } else {
      assert SplitOn(s, ' ') == [""];
    }
  }

  /** One plain character: a space closes the pending piece, any other joins it. */
  lemma PlainStep(kept: seq<string>, last: string, ch: char)
    requires ch != '\\' && ch != '"' && ch != '\''
    ensures var parts := if ch == ' ' then kept + [last] + [""] else kept + [last + [ch]];
      Step(Lexer(NonEmpty(kept), last, false, false), ch)
        == Lexer(NonEmpty(parts[..|parts| - 1]), parts[|parts| - 1], false, false)
  {
    if ch == ' ' {
      var parts := kept + [last] + [""];
      assert parts[..|parts| - 1] == kept + [last];
      NonEmptyAppend(kept, [last]);
      assert NonEmpty([last]) == if last == "" then [] else [last] by {
        assert [last][1..] == [];
      }
    } else {
      var parts := kept + [last + [ch]];
      assert parts[..|parts| - 1] == kept;
    }
  }

  /** On a line without escapes or quotes the tokens are the non-empty pieces of
      `split(' ')`; runs of spaces produce no empty argument. */
  lemma PlainTokens(s: string)
    requires Plain(s)
    ensures Tokens(s) == NonEmpty(SplitOn(Trim(s), ' '))
  {
    var t := Trim(s);
    TrimMeaning(s);
    assert Plain(t);
    PlainScan(t);
    var parts := SplitOn(t, ' ');
    assert parts == parts[..|parts| - 1] + [parts[|parts| - 1]];
    NonEmptyAppend(parts[..|parts| - 1], [parts[|parts| - 1]]);
  }

  /** Inside quotes a run without escapes or quotes, spaces included, joins the
      pending argument. */
  lemma {:induction false} QuotedRun(st: Lexer, w: string)
    requires st.inQuotes && !st.escapeNext && Plain(w)
    ensures Scan(st, w) == st.(current := st.current + w)
    decreases |w|
  {
    if |w| == 0 {
      assert st.current + w == st.current;
    } else {
      QuotedRun(st, w[..|w| - 1]);
      assert st.current + w[..|w| - 1] + [w[|w| - 1]] == st.current + w;
    }
  }

  /** A quoted run adds its characters, spaces included, to the pending argument,
      and the quote characters themselves are dropped; either quote character
      opens and either closes. */
  lemma Quoted(st: Lexer, open: char, w: string, close: char)
    requires !st.inQuotes && !st.escapeNext && Plain(w)
    requires open == '"' || open == '\''
    requires close == '"' || close == '\''
    ensures Scan(st, [open] + w + [close]) == st.(current := st.current + w)
  {
    ScanConcat(st, [open], w);
    assert Scan(st, [open]) == st.(inQuotes := true) by {
      assert [open][..0] == "";
    }
    QuotedRun(st.(inQuotes := true), w);
    ScanConcat(st, [open] + w, [close]);
    assert Scan(Scan(st, [open] + w), [close]) == Step(Scan(st, [open] + w), close) by {
      assert [close][..0] == "";
    }
  }

  /** Every character preceded by a backslash. */
  function Escaped(w: string): (e: string)
    ensures |e| == 2 * |w|
    ensures forall k :: 0 <= k < |w| ==> e[2 * k] == '\\' && e[2 * k + 1] == w[k]
  {
    if |w| == 0 then "" else Escaped(w[..|w| - 1]) + ['\\', w[|w| - 1]]
  }

  /** A backslash makes the next character literal, whatever it is (a quote, a space,
      another backslash), inside or outside quotes. */
  lemma {:induction false} EscapedRun(st: Lexer, w: string)
    requires !st.escapeNext
    ensures Scan(st, Escaped(w)) == st.(current := st.current + w)
    decreases |w|
  {
    if |w| == 0 {
      assert st.current + w == st.current;
    } else {
      var init := w[..|w| - 1];
      EscapedRun(st, init);
      ScanConcat(st, Escaped(init), ['\\', w[|w| - 1]]);
      var mid := Scan(st, Escaped(init));
      assert Scan(mid, ['\\', w[|w| - 1]]) == Step(Step(mid, '\\'), w[|w| - 1]) by {
        assert ['\\', w[|w| - 1]][..1] == ['\\'];
        assert ['\\'][..0] == "";
      }
      assert st.current + init + [w[|w| - 1]] == st.current + w;
    }
  }

  /** A lone backslash at the very end is dropped. */
  lemma TrailingBackslash(st: Lexer, s: string)
    requires !Scan(st, s).escapeNext
    ensures Finish(Scan(st, s + ['\\'])) == Finish(Scan(st, s))
  {
    assert (s + ['\\'])[..|s|] == s;
  }

  /** The command is the first token and the arguments are the remaining tokens in order;
      without tokens the command is empty. */
  lemma ParseSplit(s: string)
    ensures Tokens(s) == [] ==> Parse(s) == Command("", [])
    ensures Tokens(s) != [] ==> [Parse(s).command] + Parse(s).args == Tokens(s)
  {
    if Trim(s) == "" {
      assert Trim(s) == [];
      assert Scan(Start, Trim(s)) == Start;
    }
  }

  /** `resolvePath`: the textual join of a path argument onto the working directory. */
  function ResolvePath(path: string, currentPath: string): string {
    if StartsWith(path, "/") then path
    else if path == "." then currentPath
    else if path == ".." then
      if currentPath == "/" then "/"
      else
        var parts := Segments(currentPath);
        "/" + Join(if |parts| == 0 then [] else parts[..|parts| - 1], "/")
    else currentPath + (if EndsWith(currentPath, "/") then "" else "/") + path
  }

  function DropLast(xs: seq<string>): seq<string> {
    if |xs| == 0 then [] else xs[..|xs| - 1]
  }

  /** An absolute argument is kept, `.` is the working directory, `..` drops the last
      segment of the working directory (staying at the root), and any other argument is
      appended after one separator; a `..` inside a longer argument is kept as a segment. */
  lemma ResolvePathRules(path: string, currentPath: string)
    ensures var r := ResolvePath(path, currentPath);
      && (StartsWith(path, "/") ==> r == path)
      && (path == "." ==> r == currentPath)
      && (path == ".." ==> StartsWith(r, "/") && Segments(r) == DropLast(Segments(currentPath)))
      && (!StartsWith(path, "/") && path != "." && path != ".." ==>
            && StartsWith(r, currentPath) && EndsWith(r, path)
            && |r| == |currentPath| + |path| + (if EndsWith(currentPath, "/") then 0 else 1)
            && (!EndsWith(currentPath, "/") ==> r[|currentPath|] == '/')
            && Segments(r) == Segments(currentPath) + Segments(path))
  {
    var r := ResolvePath(path, currentPath);
    if path == ".." {
      SegmentsRoot();
      if currentPath != "/" {
        var parts := Segments(currentPath);
        var kept := DropLast(parts);
        forall k | 0 <= k < |kept| ensures IsSegment(kept[k]) {
          assert kept[k] == parts[k];
        }
        SegmentsOfAbsolute(kept);
      } else {
        assert r == "/" + Join([], "/");
      }
    } else if !StartsWith(path, "/") && path != "." {
      if EndsWith(currentPath, "/") {
        var c := currentPath[..|currentPath| - 1];
        assert currentPath == c + "/";
        assert r == c + "/" + path;
        SegmentsConcat(c, path);
        SegmentsAppend(c, "");
      } else {
        assert r == currentPath + "/" + path;
        SegmentsConcat(currentPath, path);
      }
      assert r[..|currentPath|] == currentPath;
      assert r[|r| - |path|..] == path;
    }
  }
}
