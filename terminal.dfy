/** Terminal formatting: ANSI colouring, the shell prompt and the text table used by `help`.
    A coloured string carries escape sequences `ESC [ <digits> m`; what a terminal shows of
    it is the string with those sequences removed (`Strip`), and the table is aligned on
    that visible text. */
module Terminal {
  import opened Text

  const Esc: char := '\U{1B}'

  /** The two characters every colour sequence starts with. */
  const EscBracket: string := [Esc, '[']

  // ---------------------------------------------------------------------------
  // Colours
  // ---------------------------------------------------------------------------

  const ColorNames: seq<string> :=
    ["black", "red", "green", "yellow", "blue", "magenta", "cyan", "white", "reset"]

  predicate IsDigit(c: char) {
    '0' <= c <= '9'
  }

  /** The SGR parameter of each known colour name; any other name has none. */
  function ColorDigits(color: string): (d: Option<string>)
    ensures d.Some? <==> color in ColorNames
    ensures d.Some? ==> |d.value| >= 1 && forall k :: 0 <= k < |d.value| ==> IsDigit(d.value[k])
  {
    if color == "black" then Some("30")
    else if color == "red" then Some("31")
    else if color == "green" then Some("32")
    else if color == "yellow" then Some("33")
    else if color == "blue" then Some("34")
    else if color == "magenta" then Some("35")
    else if color == "cyan" then Some("36")
    else if color == "white" then Some("37")
    else if color == "reset" then Some("0")
    else None
  }

  /** `colors[color] || ''` */
  function ColorCode(color: string): string {
    match ColorDigits(color)
    case Some(d) => EscBracket + d + "m"
    case None => ""
  }

  const Reset: string := ColorCode("reset")

  /** `colorText(text, color)`: the colour's code, the text, then the reset code. */
  function ColorText(text: string, color: string): string {
    ColorCode(color) + text + Reset
  }

  // ---------------------------------------------------------------------------
  // Removing colour sequences: `s.replace(/\x1B\[\d+m/g, '')`
  // ---------------------------------------------------------------------------

  /** `s[i..i + n]` is a whole match of the pattern `ESC [ digit+ m`. */
  predicate EscapeSpan(s: string, i: nat, n: nat) {
    n >= 4 && i + n <= |s| && s[i] == Esc && s[i + 1] == '[' && s[i + n - 1] == 'm' &&
    forall k :: i + 2 <= k < i + n - 1 ==> IsDigit(s[k])
  }

  /** The end of the run of digits that starts at index `i`. */
  function DigitsEnd(s: string, i: nat): (j: nat)
    requires i <= |s|
    ensures i <= j <= |s|
    ensures forall k :: i <= k < j ==> IsDigit(s[k])
    ensures j < |s| ==> !IsDigit(s[j])
    decreases |s| - i
  {
    if i == |s| || !IsDigit(s[i]) then i else DigitsEnd(s, i + 1)
  }

  /** The length of the match of the pattern at index `i`, or 0 when none starts there. */
  function EscapeLength(s: string, i: nat): (n: nat)
    requires i <= |s|
    ensures i + n <= |s|
    ensures n > 0 ==> EscapeSpan(s, i, n)
  {
    if i + 4 <= |s| && s[i] == Esc && s[i + 1] == '[' then
      var j := DigitsEnd(s, i + 2);
      if j > i + 2 && j < |s| && s[j] == 'm' then j + 1 - i else 0
    else
      0
  }

  /** The match is unique: any colour sequence at `i` is the one `EscapeLength` finds. */
  lemma EscapeUnique(s: string, i: nat, m: nat)
    requires EscapeSpan(s, i, m)
    ensures EscapeLength(s, i) == m
  {
  }

  /** The text shown for `s[i..]`: the regular-expression replacement scans left to right,
      a match is removed, any other character is kept, and scanning continues after either. */
  function StripFrom(s: string, i: nat): (r: string)
    requires i <= |s|
    ensures |r| <= |s| - i
    decreases |s| - i
  {
    if i == |s| then ""
    else
      var n := EscapeLength(s, i);
      if n > 0 then StripFrom(s, i + n) else [s[i]] + StripFrom(s, i + 1)
  }

  /** `s.replace(/\x1B\[\d+m/g, '')` */
  function Strip(s: string): (r: string)
    ensures |r| <= |s|
  {
    StripFrom(s, 0)
  }

  /** A character that cannot continue a colour sequence. */
  predicate Stops(c: char) {
    c != '[' && c != 'm' && !IsDigit(c)
  }

  /** A character after which no colour sequence can be unfinished. */
  predicate Closes(c: char) {
    c != Esc && c != '[' && !IsDigit(c)
  }

  /** No colour sequence can straddle the boundary between `a` and `b`. */
  predicate Separates(a: string, b: string) {
    |a| == 0 || |b| == 0 || Stops(b[0]) || Closes(a[|a| - 1])
  }

  /** A match inside `b` is the same match behind any prefix. */
  lemma EscapeShift(a: string, b: string, i: nat)
    requires i <= |b|
    ensures EscapeLength(a + b, |a| + i) == EscapeLength(b, i)
  {
    var s := a + b;
    var n := EscapeLength(b, i);
    if n > 0 {
      assert EscapeSpan(s, |a| + i, n);
      EscapeUnique(s, |a| + i, n);
    }
    var m := EscapeLength(s, |a| + i);
    if m > 0 {
      assert forall k :: i <= k < i + m ==> b[k] == s[|a| + k];
      assert EscapeSpan(b, i, m);
      EscapeUnique(b, i, m);
    }
  }

  lemma {:induction false} StripShift(a: string, b: string, i: nat)
    requires i <= |b|
    ensures StripFrom(a + b, |a| + i) == StripFrom(b, i)
    decreases |b| - i
  {
    if i < |b| {
      EscapeShift(a, b, i);
      var n := EscapeLength(b, i);
      if n > 0 {
        StripShift(a, b, i + n);
      } else {
        StripShift(a, b, i + 1);
      }
    }
  }

  /** A match that starts in `a` ends in `a` when the boundary is safe. */
  lemma EscapeAppend(a: string, b: string, i: nat)
    requires i < |a| && Separates(a, b)
    ensures EscapeLength(a + b, i) == EscapeLength(a, i)
  {
    var s := a + b;
    var n := EscapeLength(a, i);
    if n > 0 {
      assert EscapeSpan(s, i, n);
      EscapeUnique(s, i, n);
    }
    var m := EscapeLength(s, i);
    if m > 0 {
      EscapeInside(a, b, i, m);
      assert forall k :: i <= k < i + m ==> a[k] == s[k];
      assert EscapeSpan(a, i, m);
      EscapeUnique(a, i, m);
    }
  }

  /** A colour sequence that starts in `a` cannot run into `b`. */
  lemma EscapeInside(a: string, b: string, i: nat, m: nat)
    requires i < |a| && Separates(a, b) && EscapeSpan(a + b, i, m)
    ensures i + m <= |a|
  {
    var s := a + b;
    assert s[|a| - 1] == a[|a| - 1];
    assert |b| > 0 ==> s[|a|] == b[0];
  }

  lemma {:induction false} StripFromAppend(a: string, b: string, i: nat)
    requires i <= |a| && Separates(a, b)
    ensures StripFrom(a + b, i) == StripFrom(a, i) + Strip(b)
    decreases |a| - i, 1
  {
    if i == |a| {
      StripFromEnd(a, b);
    } else {
      EscapeAppend(a, b, i);
      if EscapeLength(a, i) > 0 {
        StripSkipAppend(a, b, i);
      } else {
        StripKeepAppend(a, b, i);
      }
    }
  }

  /** The step of `StripFromAppend` that removes a colour sequence. */
  lemma {:induction false} StripSkipAppend(a: string, b: string, i: nat)
    requires i < |a| && Separates(a, b)
    requires EscapeLength(a + b, i) == EscapeLength(a, i) > 0
    ensures StripFrom(a + b, i) == StripFrom(a, i) + Strip(b)
    decreases |a| - i, 0
  {
    var n := EscapeLength(a, i);
    StripFromAppend(a, b, i + n);
  }

  /** The step of `StripFromAppend` that keeps one character. */
  lemma {:induction false} StripKeepAppend(a: string, b: string, i: nat)
    requires i < |a| && Separates(a, b)
    requires EscapeLength(a + b, i) == EscapeLength(a, i) == 0
    ensures StripFrom(a + b, i) == StripFrom(a, i) + Strip(b)
    decreases |a| - i, 0
  {
    var s := a + b;
    StripFromAppend(a, b, i + 1);
    assert s[i] == a[i];
    AppendAssoc([a[i]], StripFrom(a, i + 1), Strip(b));
  }

  lemma StripFromEnd(a: string, b: string)
    ensures StripFrom(a + b, |a|) == StripFrom(a, |a|) + Strip(b)
  {
    StripShift(a, b, 0);
    assert StripFrom(a, |a|) == "";
  }

  lemma AppendAssoc(x: string, y: string, z: string)
    ensures x + (y + z) == (x + y) + z
  {
  }

  /** Stripping distributes over a concatenation that splits no colour sequence. */
  lemma StripAppend(a: string, b: string)
    requires Separates(a, b)
    ensures Strip(a + b) == Strip(a) + Strip(b)
  {
    StripFromAppend(a, b, 0);
  }

  /** `s` holds no `ESC [`, the test `s.includes('\x1b[')` fails. */
  predicate NoEscapeStart(s: string) {
    forall j :: 0 <= j < |s| - 1 ==> !(s[j] == Esc && s[j + 1] == '[')
  }

  lemma EscapeStartOccurs(s: string, j: int)
    ensures OccursAt(s, EscBracket, j) <==> 0 <= j < |s| - 1 && s[j] == Esc && s[j + 1] == '['
  {
    if 0 <= j < |s| - 1 {
      assert s[j..j + 2] == [s[j], s[j + 1]];
    }
  }

  lemma NoEscapeFromContains(s: string)
    requires !Contains(s, EscBracket)
    ensures NoEscapeStart(s)
  {
    forall j | 0 <= j < |s| - 1
      ensures !(s[j] == Esc && s[j + 1] == '[')
    {
      EscapeStartOccurs(s, j);
    }
  }

  lemma {:induction false} StripFromPlain(s: string, i: nat)
    requires i <= |s| && NoEscapeStart(s)
    ensures StripFrom(s, i) == s[i..]
    decreases |s| - i
  {
    if i < |s| {
      assert EscapeLength(s, i) == 0;
      StripFromPlain(s, i + 1);
      assert [s[i]] + s[i + 1..] == s[i..];
    }
  }

  /** Text without `ESC [` is shown as it is. */
  lemma StripPlain(s: string)
    requires NoEscapeStart(s)
    ensures Strip(s) == s
  {
    StripFromPlain(s, 0);
  }

  lemma EscapeAt(ds: string, rest: string)
    requires |ds| >= 1 && forall k :: 0 <= k < |ds| ==> IsDigit(ds[k])
    ensures Strip(EscBracket + ds + "m" + rest) == Strip(rest)
  {
    var e := EscBracket + ds + "m";
    var s := e + rest;
    assert forall k :: 2 <= k < |e| - 1 ==> s[k] == ds[k - 2];
    assert EscapeSpan(s, 0, |e|);
    EscapeUnique(s, 0, |e|);
    StripShift(e, rest, 0);
  }

  lemma ResetInvisible()
    ensures Strip(Reset) == ""
  {
    EscapeAt("0", "");
    assert Reset == EscBracket + "0" + "m" + "";
  }

  /** A coloured text shows exactly the text. */
  lemma ColorTextVisible(text: string, color: string)
    ensures Strip(ColorText(text, color)) == Strip(text)
  {
    var code := ColorCode(color);
    ResetInvisible();
    assert Reset[0] == Esc;
    StripAppend(code + text, Reset);
    match ColorDigits(color)
    case Some(d) =>
      EscapeAt(d, text);
    case None =>
      assert code + text == text;
  }

  /** An unknown colour name adds no prefix, but the reset code is still appended. */
  lemma UnknownColor(text: string, color: string)
    ensures ColorCode(color) == "" <==> color !in ColorNames
    ensures color !in ColorNames ==> ColorText(text, color) == text + Reset
  {
  }

  /** A coloured string ends in the `m` of the reset code. */
  lemma ColorTextEnd(text: string, color: string)
    ensures var r := ColorText(text, color); |r| > 0 && r[|r| - 1] == 'm'
  {
  }

  // ---------------------------------------------------------------------------
  // The prompt
  // ---------------------------------------------------------------------------

  /** `formatPrompt(currentPath)` */
  function FormatPrompt(currentPath: string): string {
    ColorText("user", "green") + "@" + ColorText("irisos", "green") + ":" +
    ColorText(currentPath, "blue") + "$ "
  }

  /** A piece that ends in a character no colour sequence can be left open on shows the
      same in front of anything. */
  lemma StripCons(a: string, b: string, sa: string)
    requires |a| > 0 && Closes(a[|a| - 1]) && Strip(a) == sa
    ensures Strip(a + b) == sa + Strip(b)
  {
    StripAppend(a, b);
  }

  /** The prompt's pieces show as their visible texts joined by `@`, `:` and `$ `. */
  lemma PromptPieces(user: string, host: string, path: string, u: string, h: string, p: string,
                     at: string, colon: string, dollar: string)
    requires |user| > 0 && Closes(user[|user| - 1]) && Strip(user) == u
    requires |host| > 0 && Closes(host[|host| - 1]) && Strip(host) == h
    requires |path| > 0 && Closes(path[|path| - 1]) && Strip(path) == p
    requires |at| > 0 && Closes(at[|at| - 1]) && Strip(at) == at
    requires |colon| > 0 && Closes(colon[|colon| - 1]) && Strip(colon) == colon
    requires Strip(dollar) == dollar
    ensures Strip(user + at + host + colon + path + dollar) == u + at + h + colon + p + dollar
  {
    StripCons(user, at, u);
    var a1 := user + at;
    assert a1[|a1| - 1] == at[|at| - 1];
    StripCons(a1, host, u + at);
    var a2 := a1 + host;
    assert a2[|a2| - 1] == host[|host| - 1];
    StripCons(a2, colon, u + at + h);
    var a3 := a2 + colon;
    assert a3[|a3| - 1] == colon[|colon| - 1];
    StripCons(a3, path, u + at + h + colon);
    var a4 := a3 + path;
    assert a4[|a4| - 1] == path[|path| - 1];
    StripCons(a4, dollar, u + at + h + colon + p);
  }

  /** What the terminal shows of the prompt is `user@irisos:<path>$ `. */
  lemma PromptVisible(currentPath: string)
    ensures Strip(FormatPrompt(currentPath)) == "user@irisos:" + Strip(currentPath) + "$ "
  {
    UserWord();
    HostWord();
    PromptMarks();
    ColorTextEnd(currentPath, "blue");
    ColorTextVisible(currentPath, "blue");
    PromptPieces(ColorText("user", "green"), ColorText("irisos", "green"),
                 ColorText(currentPath, "blue"), "user", "irisos", Strip(currentPath),
                 "@", ":", "$ ");
    PromptHead();
  }

  /** A plain word in colour ends in a character that closes it, and shows as itself. */
  lemma ColoredWord(word: string, color: string)
    requires NoEscapeStart(word)
    ensures var r := ColorText(word, color); |r| > 0 && Closes(r[|r| - 1]) && Strip(r) == word
  {
    ColorTextEnd(word, color);
    StripPlain(word);
    ColorTextVisible(word, color);
  }

  lemma UserWord()
    ensures var user := ColorText("user", "green");
      |user| > 0 && Closes(user[|user| - 1]) && Strip(user) == "user"
  {
    ColoredWord("user", "green");
  }

  lemma HostWord()
    ensures var host := ColorText("irisos", "green");
      |host| > 0 && Closes(host[|host| - 1]) && Strip(host) == "irisos"
  {
    ColoredWord("irisos", "green");
  }

  lemma PromptMarks()
    ensures Strip("@") == "@" && Strip(":") == ":" && Strip("$ ") == "$ "
  {
    StripPlain("@");
    StripPlain(":");
    StripPlain("$ ");
  }

  lemma PromptHead()
    ensures "user" + "@" + "irisos" + ":" == "user@irisos:"
  {
  }

  // ---------------------------------------------------------------------------
  // Tables
  // ---------------------------------------------------------------------------

  /** One property of a row object; `None` is a property whose value is `undefined`. */
  datatype Cell = Cell(key: string, value: Option<string>)

  /** A row object, its properties in key order. */
  type Row = seq<Cell>

  /** `Object.keys(row)` */
  function Keys(row: Row): (keys: seq<string>)
    ensures |keys| == |row| && forall i :: 0 <= i < |row| ==> keys[i] == row[i].key
  {
    seq(|row|, i requires 0 <= i < |row| => row[i].key)
  }

  function CellValue(c: Cell): string {
    if c.value.Some? then c.value.value else ""
  }

  /** `row[col] !== undefined ? String(row[col]) : ''`, looking from property `i` on. */
  function CellFrom(row: Row, col: string, i: nat): string
    decreases |row| - i
  {
    if i >= |row| then ""
    else if row[i].key == col then CellValue(row[i])
    else CellFrom(row, col, i + 1)
  }

  /** The cell of column `col`. */
  function CellText(row: Row, col: string): string {
    CellFrom(row, col, 0)
  }

  /** `row` has no property named `col` before index `k`. */
  predicate AbsentBefore(row: Row, col: string, k: nat) {
    forall j :: 0 <= j < k && j < |row| ==> row[j].key != col
  }

  lemma {:induction false} CellFromMeaning(row: Row, col: string, i: nat)
    requires AbsentBefore(row, col, i)
    ensures AbsentBefore(row, col, |row|) ==> CellFrom(row, col, i) == ""
    ensures forall k :: i <= k < |row| && row[k].key == col && AbsentBefore(row, col, k) ==>
              CellFrom(row, col, i) == CellValue(row[k])
    decreases |row| - i
  {
    if i < |row| && row[i].key != col {
      CellFromMeaning(row, col, i + 1);
    }
  }

  /** A cell is the value of the property named after its column (the first, should the row
      list it twice); a missing property or an `undefined` value is the empty string. */
  lemma CellTextMeaning(row: Row, col: string)
    ensures AbsentBefore(row, col, |row|) ==> CellText(row, col) == ""
    ensures forall k :: 0 <= k < |row| && row[k].key == col && AbsentBefore(row, col, k) ==>
              CellText(row, col) == (if row[k].value.Some? then row[k].value.value else "")
  {
    CellFromMeaning(row, col, 0);
  }

  /** The width of column `col` over the first `n` rows: the header's length, widened to
      the visible length of each cell. */
  function WidthOver(col: string, rows: seq<Row>, n: nat): (w: nat)
    requires n <= |rows|
    ensures w >= |col|
    ensures forall r :: 0 <= r < n ==> w >= |Strip(CellText(rows[r], col))|
  {
    if n == 0 then |col|
    else
      var here := |Strip(CellText(rows[n - 1], col))|;
      Max(WidthOver(col, rows, n - 1), here)
  }

  /** `columnWidths`, indexed by column position. */
  function Widths(cols: seq<string>, rows: seq<Row>): (ws: seq<nat>)
    ensures |ws| == |cols|
    ensures forall i :: 0 <= i < |cols| ==> ws[i] == WidthOver(cols[i], rows, |rows|)
  {
    seq(|cols|, i requires 0 <= i < |cols| => WidthOver(cols[i], rows, |rows|))
  }

  /** Every cell of `row` fits the width of its column. */
  predicate Fits(row: Row, cols: seq<string>, ws: seq<nat>) {
    |ws| == |cols| && forall i :: 0 <= i < |cols| ==> ws[i] >= |Strip(CellText(row, cols[i]))|
  }

  /** The first `n` pieces, concatenated in order. */
  function ConcatFirst(pieces: seq<string>, n: nat): string
    requires n <= |pieces|
  {
    if n == 0 then "" else ConcatFirst(pieces, n - 1) + pieces[n - 1]
  }

  lemma ConcatStep(pieces: seq<string>, n: nat, piece: string)
    requires n < |pieces| && pieces[n] == piece
    ensures ConcatFirst(pieces, n + 1) == ConcatFirst(pieces, n) + piece
  {
  }

  function Concat(pieces: seq<string>): string {
    ConcatFirst(pieces, |pieces|)
  }

  /** The header cells: each column name padded to width + 2, in cyan. */
  function HeaderPieces(cols: seq<string>, ws: seq<nat>): (pieces: seq<string>)
    requires |ws| == |cols|
    ensures |pieces| == |cols|
    ensures forall i :: 0 <= i < |cols| ==> pieces[i] == ColorText(PadEnd(cols[i], ws[i] + 2), "cyan")
  {
    seq(|cols|, i requires 0 <= i < |cols| => ColorText(PadEnd(cols[i], ws[i] + 2), "cyan"))
  }

  /** The separator cells: width + 2 dashes each. */
  function SeparatorPieces(ws: seq<nat>): (pieces: seq<string>)
    ensures |pieces| == |ws|
    ensures forall i :: 0 <= i < |ws| ==> pieces[i] == Repeat('-', ws[i] + 2)
  {
    seq(|ws|, i requires 0 <= i < |ws| => Repeat('-', ws[i] + 2))
  }

  /** One data cell: a coloured cell is padded by its visible length, a plain one by `padEnd`. */
  function CellPiece(cell: string, w: nat): string
    requires w >= |Strip(cell)|
  {
    if Contains(cell, EscBracket) then cell + Repeat(' ', w - |Strip(cell)|) + "  "
    else PadEnd(cell, w + 2)
  }

  function RowPieces(row: Row, cols: seq<string>, ws: seq<nat>): (pieces: seq<string>)
    requires Fits(row, cols, ws)
    ensures |pieces| == |cols|
    ensures forall i :: 0 <= i < |cols| ==> pieces[i] == CellPiece(CellText(row, cols[i]), ws[i])
  {
    seq(|cols|, i requires 0 <= i < |cols| => CellPiece(CellText(row, cols[i]), ws[i]))
  }

  /** The text of one data line, without its line break. */
  function RowText(row: Row, cols: seq<string>, ws: seq<nat>): string
    requires Fits(row, cols, ws)
  {
    Concat(RowPieces(row, cols, ws))
  }

  predicate AllFit(rows: seq<Row>, cols: seq<string>, ws: seq<nat>) {
    forall r :: 0 <= r < |rows| ==> Fits(rows[r], cols, ws)
  }

  function RowLines(rows: seq<Row>, cols: seq<string>, ws: seq<nat>): (lines: seq<string>)
    requires AllFit(rows, cols, ws)
    ensures |lines| == |rows|
    ensures forall r :: 0 <= r < |rows| ==> lines[r] == RowText(rows[r], cols, ws) + "\n"
  {
    seq(|rows|, r requires 0 <= r < |rows| => RowText(rows[r], cols, ws) + "\n")
  }

  lemma WidthsFit(rows: seq<Row>, cols: seq<string>)
    ensures AllFit(rows, cols, Widths(cols, rows))
  {
  }

  /** The string `formatTable(data)` returns; `None` is a missing argument. */
  function Table(data: Option<seq<Row>>): (table: string)
    ensures table == "" <==> data == None || data.value == []
  {
    if data == None || |data.value| == 0 then ""
    else
      var rows := data.value;
      var cols := Keys(rows[0]);
      var ws := Widths(cols, rows);
      WidthsFit(rows, cols);
      Concat(HeaderPieces(cols, ws)) + "\n" + Concat(SeparatorPieces(ws)) + "\n" +
      Concat(RowLines(rows, cols, ws))
  }

  /** The `columnWidths` loop: for each column, the header length widened to every cell. */
  method MeasureColumns(columns: seq<string>, rows: seq<Row>) returns (widths: seq<nat>)
    ensures widths == Widths(columns, rows)
  {
    widths := [];
    for c := 0 to |columns|
      invariant |widths| == c
      invariant forall i :: 0 <= i < c ==> widths[i] == WidthOver(columns[i], rows, |rows|)
    {
      var width: nat := |columns[c]|;
      for r := 0 to |rows|
        invariant width == WidthOver(columns[c], rows, r)
      {
        var cellValue := CellText(rows[r], columns[c]);
        var plainText := Strip(cellValue);
        width := Max(width, |plainText|);
      }
      widths := widths + [width];
    }
  }

  /** The header loop. */
  method FormatHeader(columns: seq<string>, widths: seq<nat>) returns (line: string)
    requires |widths| == |columns|
    ensures line == Concat(HeaderPieces(columns, widths))
  {
    line := "";
    ghost var pieces := HeaderPieces(columns, widths);
    for c := 0 to |columns|
      invariant line == ConcatFirst(pieces, c)
    {
      var cell := ColorText(PadEnd(columns[c], widths[c] + 2), "cyan");
      ConcatStep(pieces, c, cell);
      line := line + cell;
    }
  }

  /** The separator loop. */
  method FormatSeparator(widths: seq<nat>) returns (line: string)
    ensures line == Concat(SeparatorPieces(widths))
  {
    line := "";
    ghost var pieces := SeparatorPieces(widths);
    for c := 0 to |widths|
      invariant line == ConcatFirst(pieces, c)
    {
      var dashes := Repeat('-', widths[c] + 2);
      ConcatStep(pieces, c, dashes);
      line := line + dashes;
    }
  }

  /** The inner loop over the columns of one data row. */
  method FormatRow(row: Row, columns: seq<string>, widths: seq<nat>) returns (line: string)
    requires Fits(row, columns, widths)
    ensures line == RowText(row, columns, widths)
  {
    line := "";
    ghost var pieces := RowPieces(row, columns, widths);
    for c := 0 to |columns|
      invariant line == ConcatFirst(pieces, c)
    {
      var cellValue := CellText(row, columns[c]);
      var piece := FormatCell(cellValue, widths[c]);
      ConcatStep(pieces, c, piece);
      line := line + piece;
    }
  }

  /** One cell of a data line, padded to its column's width + 2. */
  method FormatCell(cellValue: string, width: nat) returns (piece: string)
    requires width >= |Strip(cellValue)|
    ensures piece == CellPiece(cellValue, width)
  {
    if Contains(cellValue, EscBracket) {
      var plainText := Strip(cellValue);
      var padding := Repeat(' ', width - |plainText|);
      piece := cellValue + padding + "  ";
    } else {
      piece := PadEnd(cellValue, width + 2);
    }
  }

  /** `formatTable(data)` */
  method FormatTable(data: Option<seq<Row>>) returns (table: string)
    ensures table == Table(data)
  {
    if data == None || |data.value| == 0 {
      return "";
    }
    var rows := data.value;
    var columns := Keys(rows[0]);
    var widths := MeasureColumns(columns, rows);
    WidthsFit(rows, columns);
    var header := FormatHeader(columns, widths);
    var separator := FormatSeparator(widths);
    var body := FormatRows(rows, columns, widths);
    table := header + "\n" + separator + "\n" + body;
  }

  /** The loop over the data rows: each row's line and a line break. */
  method FormatRows(rows: seq<Row>, columns: seq<string>, widths: seq<nat>) returns (body: string)
    requires AllFit(rows, columns, widths)
    ensures body == Concat(RowLines(rows, columns, widths))
  {
    body := "";
    ghost var lines := RowLines(rows, columns, widths);
    for r := 0 to |rows|
      invariant body == ConcatFirst(lines, r)
    {
      var line := FormatRow(rows[r], columns, widths);
      ConcatStep(lines, r, line + "\n");
      body := body + (line + "\n");
    }
  }

  // ---------------------------------------------------------------------------
  // What the table shows
  // ---------------------------------------------------------------------------

  /** The number of characters a line of the table takes over its first `n` columns. */
  function LineWidth(ws: seq<nat>, n: nat): nat
    requires n <= |ws|
  {
    if n == 0 then 0 else LineWidth(ws, n - 1) + ws[n - 1] + 2
  }

  lemma RepeatAppend(c: char, a: nat, b: nat)
    ensures Repeat(c, a) + Repeat(c, b) == Repeat(c, a + b)
  {
  }

  /** The separator line is all dashes, width + 2 per column. */
  lemma {:induction false} SeparatorDashes(ws: seq<nat>, n: nat)
    requires n <= |ws|
    ensures ConcatFirst(SeparatorPieces(ws), n) == Repeat('-', LineWidth(ws, n))
  {
    if n > 0 {
      SeparatorDashes(ws, n - 1);
      RepeatAppend('-', LineWidth(ws, n - 1), ws[n - 1] + 2);
    }
  }

  /** Pieces of width + 2 characters add up to the line width. */
  lemma {:induction false} ConcatLength(q: seq<string>, ws: seq<nat>, n: nat)
    requires |q| == |ws| && n <= |q|
    requires forall i :: 0 <= i < |q| ==> |q[i]| == ws[i] + 2
    ensures |ConcatFirst(q, n)| == LineWidth(ws, n)
  {
    if n > 0 {
      ConcatLength(q, ws, n - 1);
    }
  }

  /** Every piece ends in a character after which no colour sequence is unfinished. */
  predicate ClosedPieces(p: seq<string>) {
    forall i :: 0 <= i < |p| ==> |p[i]| > 0 && Closes(p[i][|p[i]| - 1])
  }

  function StripAll(p: seq<string>): (r: seq<string>)
    ensures |r| == |p| && forall i :: 0 <= i < |p| ==> r[i] == Strip(p[i])
  {
    seq(|p|, i requires 0 <= i < |p| => Strip(p[i]))
  }

  /** Closed pieces show, concatenated, as their visible texts concatenated. */
  lemma {:induction false} StripConcat(p: seq<string>, n: nat)
    requires n <= |p| && ClosedPieces(p)
    ensures Strip(ConcatFirst(p, n)) == ConcatFirst(StripAll(p), n)
  {
    if n > 0 {
      var a := ConcatFirst(p, n - 1);
      if n > 1 {
        assert a == ConcatFirst(p, n - 2) + p[n - 2];
        assert a[|a| - 1] == p[n - 2][|p[n - 2]| - 1];
      }
      StripAppend(a, p[n - 1]);
      StripConcat(p, n - 1);
    }
  }

  lemma SpacesPlain(n: nat)
    ensures NoEscapeStart(Repeat(' ', n))
  {
  }

  /** Padding plain text with spaces keeps it plain. */
  lemma PadPlain(s: string, n: int)
    requires NoEscapeStart(s)
    ensures NoEscapeStart(PadEnd(s, n))
  {
    var r := PadEnd(s, n);
    forall j | 0 <= j < |r| - 1
      ensures !(r[j] == Esc && r[j + 1] == '[')
    {
      if j + 1 < |s| {
        assert r[j] == r[..|s|][j] && r[j + 1] == r[..|s|][j + 1];
      } else if j + 1 == |s| {
        assert r[j + 1] == ' ';
      } else {
        assert r[j] == ' ';
      }
    }
  }

  /** A data cell shows as its visible text padded to width + 2, whether or not it is
      coloured, and it ends in a space. */
  lemma CellVisible(cell: string, w: nat)
    requires w >= |Strip(cell)|
    ensures Strip(CellPiece(cell, w)) == PadEnd(Strip(cell), w + 2)
    ensures var piece := CellPiece(cell, w); |piece| > 0 && piece[|piece| - 1] == ' '
  {
    var piece := CellPiece(cell, w);
    var visible := Strip(cell);
    if Contains(cell, EscBracket) {
      var padding := Repeat(' ', w - |visible|);
      var tail := padding + "  ";
      AppendAssoc(cell, padding, "  ");
      assert tail == Repeat(' ', w + 2 - |visible|);
      SpacesPlain(w + 2 - |visible|);
      StripPlain(tail);
      StripAppend(cell, tail);
    } else {
      NoEscapeFromContains(cell);
      StripPlain(cell);
      PadPlain(cell, w + 2);
      StripPlain(piece);
    }
  }

  /** What a data line shows: each cell's visible text padded to width + 2. */
  function VisibleCells(row: Row, cols: seq<string>, ws: seq<nat>): (cells: seq<string>)
    requires |ws| == |cols|
    ensures |cells| == |cols|
    ensures forall i :: 0 <= i < |cols| ==>
              cells[i] == PadEnd(Strip(CellText(row, cols[i])), ws[i] + 2)
  {
    seq(|cols|, i requires 0 <= i < |cols| => PadEnd(Strip(CellText(row, cols[i])), ws[i] + 2))
  }

  /** A data line shows as its cells' visible texts padded to their columns, and so has
      the line width whatever colours its cells carry. */
  lemma RowVisible(row: Row, cols: seq<string>, ws: seq<nat>)
    requires Fits(row, cols, ws)
    ensures Strip(RowText(row, cols, ws)) == Concat(VisibleCells(row, cols, ws))
    ensures |Strip(RowText(row, cols, ws))| == LineWidth(ws, |cols|)
  {
    var pieces := RowPieces(row, cols, ws);
    var cells := VisibleCells(row, cols, ws);
    forall i | 0 <= i < |cols|
      ensures |pieces[i]| > 0 && Closes(pieces[i][|pieces[i]| - 1])
      ensures Strip(pieces[i]) == cells[i]
    {
      CellVisible(CellText(row, cols[i]), ws[i]);
    }
    StripConcat(pieces, |cols|);
    assert StripAll(pieces) == cells;
    ConcatLength(cells, ws, |cols|);
  }

  /** The visible header: each column name padded to width + 2. */
  function VisibleHeader(cols: seq<string>, ws: seq<nat>): (cells: seq<string>)
    requires |ws| == |cols|
    ensures |cells| == |cols|
    ensures forall i :: 0 <= i < |cols| ==> cells[i] == PadEnd(cols[i], ws[i] + 2)
  {
    seq(|cols|, i requires 0 <= i < |cols| => PadEnd(cols[i], ws[i] + 2))
  }

  /** One header cell shows as its padded name and ends a colour sequence. */
  lemma HeaderCell(name: string, w: nat)
    requires NoEscapeStart(name)
    ensures var piece := ColorText(PadEnd(name, w), "cyan");
      |piece| > 0 && Closes(piece[|piece| - 1]) && Strip(piece) == PadEnd(name, w)
  {
    ColorTextEnd(PadEnd(name, w), "cyan");
    ColorTextVisible(PadEnd(name, w), "cyan");
    PadPlain(name, w);
    StripPlain(PadEnd(name, w));
  }

  /** Column names without colour codes show, in cyan, padded to their widths; the header
      line then has the line width. */
  lemma HeaderVisible(cols: seq<string>, ws: seq<nat>)
    requires |ws| == |cols|
    requires forall i :: 0 <= i < |cols| ==> ws[i] >= |cols[i]| && NoEscapeStart(cols[i])
    ensures Strip(Concat(HeaderPieces(cols, ws))) == Concat(VisibleHeader(cols, ws))
    ensures |Strip(Concat(HeaderPieces(cols, ws)))| == LineWidth(ws, |cols|)
  {
    var pieces := HeaderPieces(cols, ws);
    var cells := VisibleHeader(cols, ws);
    forall i | 0 <= i < |cols|
      ensures |pieces[i]| > 0 && Closes(pieces[i][|pieces[i]| - 1])
      ensures Strip(pieces[i]) == cells[i]
    {
      HeaderCell(cols[i], ws[i] + 2);
    }
    StripConcat(pieces, |cols|);
    assert StripAll(pieces) == cells;
    ConcatLength(cells, ws, |cols|);
  }

  /** The header, the separator and every data line take the same width on screen: the
      separator is all dashes, each data line shows as wide as the separator, and so does
      the header when the column names carry no colour codes. */
  lemma TableAligned(rows: seq<Row>)
    requires |rows| > 0
    ensures var cols := Keys(rows[0]);
      var ws := Widths(cols, rows);
      var width := LineWidth(ws, |cols|);
      && Concat(SeparatorPieces(ws)) == Repeat('-', width)
      && AllFit(rows, cols, ws)
      && (forall r :: 0 <= r < |rows| ==> |Strip(RowText(rows[r], cols, ws))| == width)
      && ((forall i :: 0 <= i < |cols| ==> NoEscapeStart(cols[i])) ==>
            |Strip(Concat(HeaderPieces(cols, ws)))| == width)
  {
    var cols := Keys(rows[0]);
    var ws := Widths(cols, rows);
    SeparatorDashes(ws, |cols|);
    WidthsFit(rows, cols);
    forall r | 0 <= r < |rows|
      ensures |Strip(RowText(rows[r], cols, ws))| == LineWidth(ws, |cols|)
    {
      RowVisible(rows[r], cols, ws);
    }
    if forall i :: 0 <= i < |cols| ==> NoEscapeStart(cols[i]) {
      HeaderVisible(cols, ws);
    }
  }

  /** A missing property or an `undefined` value renders as blanks of the column's width. */
  lemma MissingCellBlank(row: Row, cols: seq<string>, ws: seq<nat>, i: nat)
    requires Fits(row, cols, ws) && i < |cols|
    requires forall k :: 0 <= k < |row| && row[k].key == cols[i] ==> row[k].value == None
    ensures RowPieces(row, cols, ws)[i] == Repeat(' ', ws[i] + 2)
  {
    CellTextMeaning(row, cols[i]);
    if !AbsentBefore(row, cols[i], |row|) {
      var k := FirstKey(row, cols[i]);
    }
    assert CellText(row, cols[i]) == "";
    assert !Contains("", EscBracket);
  }

  /** The first property named `col` of a row that has one. */
  lemma FirstKey(row: Row, col: string) returns (k: nat)
    requires !AbsentBefore(row, col, |row|)
    ensures k < |row| && row[k].key == col && AbsentBefore(row, col, k)
  {
    k := 0;
    while row[k].key != col
      invariant k < |row| && AbsentBefore(row, col, k) && !AbsentBefore(row, col, |row|)
      decreases |row| - k
    {
      k := k + 1;
    }
  }

  /** A column is exactly as wide as its header or as one of its cells. */
  lemma {:induction false} WidthAttained(col: string, rows: seq<Row>, n: nat)
    requires n <= |rows|
    ensures var w := WidthOver(col, rows, n);
      w == |col| || exists r :: 0 <= r < n && w == |Strip(CellText(rows[r], col))|
  {
    if n > 0 {
      WidthAttained(col, rows, n - 1);
    }
  }

  // ---------------------------------------------------------------------------
  // The lines of the table
  // ---------------------------------------------------------------------------

  lemma {:induction false} CellFromNoBreak(row: Row, col: string, i: nat)
    requires forall k :: 0 <= k < |row| && row[k].value.Some? ==> '\n' !in row[k].value.value
    ensures '\n' !in CellFrom(row, col, i)
    decreases |row| - i
  {
    if i < |row| && row[i].key != col {
      CellFromNoBreak(row, col, i + 1);
    }
  }

  lemma {:induction false} ConcatNoBreak(p: seq<string>, n: nat)
    requires n <= |p| && forall i :: 0 <= i < |p| ==> '\n' !in p[i]
    ensures '\n' !in ConcatFirst(p, n)
  {
    if n > 0 {
      ConcatNoBreak(p, n - 1);
    }
  }

  lemma PadNoBreak(s: string, n: int)
    requires '\n' !in s
    ensures '\n' !in PadEnd(s, n)
  {
    var r := PadEnd(s, n);
    forall j | 0 <= j < |r|
      ensures r[j] != '\n'
    {
      if j < |s| {
        assert r[j] == r[..|s|][j];
      }
    }
  }

  lemma ColorNoBreak(text: string, color: string)
    requires '\n' !in text
    ensures '\n' !in ColorText(text, color)
  {
    assert '\n' !in ColorCode(color) && '\n' !in Reset;
  }

  /** The text of the data lines, without their line breaks. */
  function RowTexts(rows: seq<Row>, cols: seq<string>, ws: seq<nat>): (texts: seq<string>)
    requires AllFit(rows, cols, ws)
    ensures |texts| == |rows|
    ensures forall r :: 0 <= r < |rows| ==> texts[r] == RowText(rows[r], cols, ws)
  {
    seq(|rows|, r requires 0 <= r < |rows| => RowText(rows[r], cols, ws))
  }

  /** Lines that each end in a line break split back into their texts. */
  lemma {:induction false} SplitLines(texts: seq<string>, lines: seq<string>, n: nat, tail: string)
    requires |lines| == |texts| && n <= |lines| && '\n' !in tail
    requires forall r :: 0 <= r < |lines| ==> lines[r] == texts[r] + "\n" && '\n' !in texts[r]
    ensures SplitOn(ConcatFirst(lines, n) + tail, '\n') == texts[..n] + [tail]
  {
    if n == 0 {
      assert ConcatFirst(lines, n) + tail == tail;
      SplitNoSeparator(tail, '\n');
    } else {
      var before := ConcatFirst(lines, n - 1) + texts[n - 1];
      assert ConcatFirst(lines, n) + tail == before + ['\n'] + tail;
      SplitConcat(before, tail, '\n');
      SplitLines(texts, lines, n - 1, texts[n - 1]);
      SplitNoSeparator(tail, '\n');
      assert texts[..n] == texts[..n - 1] + [texts[n - 1]];
    }
  }

  lemma HeaderNoBreak(cols: seq<string>, ws: seq<nat>)
    requires |ws| == |cols| && forall i :: 0 <= i < |cols| ==> '\n' !in cols[i]
    ensures '\n' !in Concat(HeaderPieces(cols, ws))
  {
    forall i | 0 <= i < |cols|
      ensures '\n' !in HeaderPieces(cols, ws)[i]
    {
      PadNoBreak(cols[i], ws[i] + 2);
      ColorNoBreak(PadEnd(cols[i], ws[i] + 2), "cyan");
    }
    ConcatNoBreak(HeaderPieces(cols, ws), |cols|);
  }

  lemma RowNoBreak(row: Row, cols: seq<string>, ws: seq<nat>)
    requires Fits(row, cols, ws)
    requires forall k :: 0 <= k < |row| && row[k].value.Some? ==> '\n' !in row[k].value.value
    ensures '\n' !in RowText(row, cols, ws)
  {
    var pieces := RowPieces(row, cols, ws);
    forall i | 0 <= i < |cols|
      ensures '\n' !in pieces[i]
    {
      var cell := CellText(row, cols[i]);
      CellFromNoBreak(row, cols[i], 0);
      PadNoBreak(cell, ws[i] + 2);
    }
    ConcatNoBreak(pieces, |cols|);
  }

  /** Two lines and a block of ended lines split into the two lines, the block's texts and
      the empty rest after the last break. */
  lemma SplitBlock(header: string, separator: string, texts: seq<string>, lines: seq<string>)
    requires '\n' !in header && '\n' !in separator && |lines| == |texts|
    requires forall r :: 0 <= r < |lines| ==> lines[r] == texts[r] + "\n" && '\n' !in texts[r]
    ensures SplitOn(header + "\n" + separator + "\n" + Concat(lines), '\n') ==
              [header, separator] + texts + [""]
  {
    var body := Concat(lines);
    SplitLines(texts, lines, |lines|, "");
    assert body + "" == body;
    assert texts[..|lines|] == texts;
    SplitTwo(header, separator, body, '\n');
  }

  /** Two leading lines split off in front of the rest. */
  lemma SplitTwo(h: string, t: string, rest: string, c: char)
    requires c !in h && c !in t
    ensures SplitOn(h + [c] + t + [c] + rest, c) == [h, t] + SplitOn(rest, c)
  {
    var tail := t + [c] + rest;
    SplitPrefix(t, rest, c);
    SplitPrefix(h, tail, c);
    AppendAssoc(h + [c], t + [c], rest);
    AppendAssoc(h + [c], t, [c]);
  }

  /** With no line break in the column names or the values, the table is the header line,
      the separator line and one line per data row, in order, each ended by a line break. */
  lemma TableLines(rows: seq<Row>)
    requires |rows| > 0
    requires forall k :: 0 <= k < |rows[0]| ==> '\n' !in rows[0][k].key
    requires forall r, k :: 0 <= r < |rows| && 0 <= k < |rows[r]| && rows[r][k].value.Some? ==>
               '\n' !in rows[r][k].value.value
    ensures var cols := Keys(rows[0]);
      var ws := Widths(cols, rows);
      AllFit(rows, cols, ws) &&
      SplitOn(Table(Some(rows)), '\n') ==
        [Concat(HeaderPieces(cols, ws)), Concat(SeparatorPieces(ws))] + RowTexts(rows, cols, ws) + [""]
  {
    var cols := Keys(rows[0]);
    var ws := Widths(cols, rows);
    WidthsFit(rows, cols);
    HeaderNoBreak(cols, ws);
    SeparatorDashes(ws, |cols|);
    var texts := RowTexts(rows, cols, ws);
    forall r | 0 <= r < |rows|
      ensures '\n' !in texts[r]
    {
      RowNoBreak(rows[r], cols, ws);
    }
    SplitBlock(Concat(HeaderPieces(cols, ws)), Concat(SeparatorPieces(ws)), texts,
               RowLines(rows, cols, ws));
  }
}
