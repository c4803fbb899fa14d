/** The line-oriented parser (pkg/parser/simple_parser.go): every non-blank,
    non-comment line becomes one `CommandNode` whose name and arguments are the
    line's quote-aware tokens. Go walks the line byte by byte; the separators and
    quotes it looks for are all ASCII, so walking characters is the same walk. */
module Parser {
  import opened Wrappers
  import opened Ast

  // ---------------------------------------------------------------------------
  // Tokenizer

  const NoQuote: char := '\0'

  predicate IsQuote(c: char) {
    c == '"' || c == '\''
  }

  /** The variables of `tokenize`'s loop. */
  datatype ScanState = ScanState(inQuotes: bool, quoteChar: char, current: string, tokens: seq<string>)

  const Start := ScanState(false, NoQuote, "", [])

  /** One pass of `tokenize`'s loop body on character `c`. */
  function Step(st: ScanState, c: char): ScanState {
    if IsQuote(c) then
      if !st.inQuotes then st.(inQuotes := true, quoteChar := c)
      else if c == st.quoteChar then st.(inQuotes := false, quoteChar := NoQuote)
      else st.(current := st.current + [c])
    else if c == ' ' && !st.inQuotes then
      if |st.current| > 0 then st.(current := "", tokens := st.tokens + [st.current]) else st
    else
      st.(current := st.current + [c])
  }

  /** The loop run over all of `s`, left to right. */
  function ScanFrom(st: ScanState, s: string): ScanState
    decreases |s|
  {
    if s == [] then st else ScanFrom(Step(st, s[0]), s[1..])
  }

  /** What `tokenize` does after the loop: a pending token is emitted. */
  function Flush(st: ScanState): seq<string> {
    if |st.current| > 0 then st.tokens + [st.current] else st.tokens
  }

  function Tokenize(line: string): seq<string> {
    Flush(ScanFrom(Start, line))
  }

  lemma {:induction false} ScanSnoc(st: ScanState, s: string, c: char)
    ensures ScanFrom(st, s + [c]) == Step(ScanFrom(st, s), c)
    decreases |s|
  {
    if s == [] {
      assert s + [c] == [c];
    } else {
      assert (s + [c])[1..] == s[1..] + [c];
      ScanSnoc(Step(st, s[0]), s[1..], c);
    }
  }

  /** `tokenize`: the byte loop with its builder and token list. */
  method TokenizeLine(line: string) returns (tokens: seq<string>)
    ensures tokens == Tokenize(line)
    ensures forall t | t in tokens :: t != ""
  {
    tokens := [];
    var current := "";
    var inQuotes := false;
    var quoteChar := NoQuote;
    var i := 0;
    while i < |line|
      invariant 0 <= i <= |line|
      invariant ScanState(inQuotes, quoteChar, current, tokens) == ScanFrom(Start, line[..i])
      invariant forall t | t in tokens :: t != ""
    {
      var c := line[i];
      if c == '"' || c == '\'' {
        if !inQuotes {
          inQuotes := true;
          quoteChar := c;
        } else if c == quoteChar {
          inQuotes := false;
          quoteChar := NoQuote;
        } else {
          current := current + [c];
        }
      } else if c == ' ' && !inQuotes {
        if |current| > 0 {
          tokens := tokens + [current];
          current := "";
        }
      } else {
        current := current + [c];
      }
      assert line[..i + 1] == line[..i] + [c];
      ScanSnoc(Start, line[..i], c);
      i := i + 1;
    }
    assert line[..i] == line;
    if |current| > 0 {
      tokens := tokens + [current];
    }
  }

  // ---------------------------------------------------------------------------
  // Properties of the tokenizer

  ghost predicate NoEmptyTokens(st: ScanState) {
    forall t | t in st.tokens :: t != ""
  }

  lemma {:induction false} ScanKeepsNoEmptyTokens(st: ScanState, s: string)
    requires NoEmptyTokens(st)
    ensures NoEmptyTokens(ScanFrom(st, s))
    decreases |s|
  {
    if s != [] {
      ScanKeepsNoEmptyTokens(Step(st, s[0]), s[1..]);
    }
  }

  /** `tokenize` never emits an empty token. */
  lemma TokensAreNonEmpty(line: string)
    ensures forall t | t in Tokenize(line) :: t != ""
  {
    ScanKeepsNoEmptyTokens(Start, line);
  }

  /** Tokens already emitted are never revisited: the scan only appends. */
  lemma {:induction false} ScanAppendsTokens(iq: bool, q: char, cur: string, t: seq<string>, u: seq<string>, s: string)
    ensures ScanFrom(ScanState(iq, q, cur, t + u), s)
         == var r := ScanFrom(ScanState(iq, q, cur, u), s); r.(tokens := t + r.tokens)
    decreases |s|
  {
    if s != [] {
      var st := Step(ScanState(iq, q, cur, u), s[0]);
      var st' := Step(ScanState(iq, q, cur, t + u), s[0]);
      assert st' == st.(tokens := t + st.tokens);
      ScanAppendsTokens(st.inQuotes, st.quoteChar, st.current, t, st.tokens, s[1..]);
    }
  }

  /** Outside quotes the quote character is always reset to zero. */
  lemma {:induction false} ScanResetsQuoteChar(st: ScanState, s: string)
    requires !st.inQuotes ==> st.quoteChar == NoQuote
    ensures var r := ScanFrom(st, s); !r.inQuotes ==> r.quoteChar == NoQuote
    decreases |s|
  {
    if s != [] {
      ScanResetsQuoteChar(Step(st, s[0]), s[1..]);
    }
  }

  lemma {:induction false} ScanConcat(st: ScanState, a: string, b: string)
    ensures ScanFrom(st, a + b) == ScanFrom(ScanFrom(st, a), b)
    decreases |a|
  {
    if a == [] {
      assert a + b == b;
    } else {
      assert (a + b)[1..] == a[1..] + b;
      ScanConcat(Step(st, a[0]), a[1..], b);
    }
  }

  /** A space outside quotes separates: tokenizing `a + " " + b` is tokenizing
      `a` and `b` apart, when `a` leaves no quote open. */
  lemma SpaceSeparates(a: string, b: string)
    requires !ScanFrom(Start, a).inQuotes
    ensures Tokenize(a + " " + b) == Tokenize(a) + Tokenize(b)
  {
    var sa := ScanFrom(Start, a);
    ScanResetsQuoteChar(Start, a);
    ScanConcat(Start, a, " " + b);
    assert a + " " + b == a + (" " + b);
    assert (" " + b)[0] == ' ' && (" " + b)[1..] == b;
    var mid := Step(sa, ' ');
    assert mid == ScanState(false, NoQuote, "", Flush(sa));
    ScanAppendsTokens(false, NoQuote, "", Flush(sa), [], b);
    assert Flush(sa) + [] == Flush(sa);
  }

  /** Inside quotes every character other than the opening quote is kept
      literally, spaces and the other quote character included. */
  lemma {:induction false} ScanInsideQuotes(q: char, cur: string, t: seq<string>, w: string)
    requires IsQuote(q) && q !in w
    ensures ScanFrom(ScanState(true, q, cur, t), w) == ScanState(true, q, cur + w, t)
    decreases |w|
  {
    if w == [] {
      assert cur + w == cur;
    } else {
      assert w[0] != q;
      assert Step(ScanState(true, q, cur, t), w[0]) == ScanState(true, q, cur + [w[0]], t);
      ScanInsideQuotes(q, cur + [w[0]], t, w[1..]);
      assert cur + [w[0]] + w[1..] == cur + w;
    }
  }

  /** A quoted word is one token without its quotes. */
  lemma QuotedWord(q: char, w: string)
    requires IsQuote(q) && q !in w
    ensures Tokenize([q] + w + [q]) == if w == "" then [] else [w]
  {
    ScanConcat(Start, [q], w + [q]);
    assert [q] + w + [q] == [q] + (w + [q]);
    assert ScanFrom(Start, [q]) == ScanState(true, q, "", []);
    ScanConcat(ScanState(true, q, "", []), w, [q]);
    ScanInsideQuotes(q, "", [], w);
    assert "" + w == w;
  }

  /** An unterminated quote is not an error: after any prefix `a` that
      leaves no quote open, an opening quote with no partner takes the rest
      of the line into the token `a` had started, e.g. `abc"def ghi` gives
      the single token `abcdef ghi`. */
  lemma UnterminatedQuote(a: string, q: char, w: string)
    requires IsQuote(q) && q !in w && !ScanFrom(Start, a).inQuotes
    ensures var sa := ScanFrom(Start, a);
      Tokenize(a + [q] + w) == sa.tokens + (if sa.current + w == "" then [] else [sa.current + w])
    ensures a == "" ==> Tokenize([q] + w) == if w == "" then [] else [w]
  {
    var sa := ScanFrom(Start, a);
    ScanConcat(Start, a, [q] + w);
    assert a + [q] + w == a + ([q] + w);
    ScanConcat(sa, [q], w);
    assert ScanFrom(sa, [q]) == ScanState(true, q, sa.current, sa.tokens);
    ScanInsideQuotes(q, sa.current, sa.tokens, w);
    if a == "" {
      assert sa == Start;
      assert a + [q] + w == [q] + w;
      assert "" + w == w;
    }
  }

  // A reference definition: splitting on ' ' and dropping the empty pieces.

  /** Length of the leading run of non-space characters. */
  function WordLen(s: string): (k: nat)
    ensures k <= |s|
    ensures forall i | 0 <= i < k :: s[i] != ' '
    ensures k < |s| ==> s[k] == ' '
    decreases |s|
  {
    if s == [] || s[0] == ' ' then 0 else 1 + WordLen(s[1..])
  }

  /** The space-separated fields of `s`, empty pieces dropped. */
  function Fields(s: string): seq<string>
    decreases |s|
  {
    if s == [] then []
    else if s[0] == ' ' then Fields(s[1..])
    else var k := WordLen(s); [s[..k]] + Fields(s[k..])
  }

  predicate QuoteFree(s: string) {
    forall i | 0 <= i < |s| :: !IsQuote(s[i])
  }

  /** The scan of quote-free text from a pending token `cur`. */
  lemma {:induction false} ScanQuoteFree(cur: string, t: seq<string>, s: string)
    requires QuoteFree(s)
    ensures Flush(ScanFrom(ScanState(false, NoQuote, cur, t), s))
         == t + (if cur == "" then Fields(s)
                 else var k := WordLen(s); [cur + s[..k]] + Fields(s[k..]))
    decreases |s|
  {
    if s == [] {
      assert cur + s[..0] == cur;
    } else if s[0] == ' ' {
      var st := Step(ScanState(false, NoQuote, cur, t), s[0]);
      ScanQuoteFree("", st.tokens, s[1..]);
      assert s[..0] == [] && s[0..] == s;
      if cur != "" {
        assert cur + s[..0] == cur;
      }
    } else {
      var st := Step(ScanState(false, NoQuote, cur, t), s[0]);
      assert st == ScanState(false, NoQuote, cur + [s[0]], t);
      assert QuoteFree(s[1..]);
      ScanQuoteFree(cur + [s[0]], t, s[1..]);
      WordStep(cur, s);
    }
  }

  /** A word continues past its first character. */
  lemma WordStep(cur: string, s: string)
    requires s != [] && s[0] != ' '
    ensures var k := WordLen(s);
      && [cur + [s[0]] + s[1..][..WordLen(s[1..])]] + Fields(s[1..][WordLen(s[1..])..])
         == (if cur == "" then Fields(s) else [cur + s[..k]] + Fields(s[k..]))
  {
    var k := WordLen(s);
    WordSlices(s);
    var k1 := WordLen(s[1..]);
    assert s[1..][..k1] == s[1..k] && s[1..][k1..] == s[k..];
    var w := cur + [s[0]] + s[1..k];
    assert w == cur + s[..k] by {
      assert [s[0]] + s[1..k] == s[..k];
    }
    if cur == "" {
      assert w == s[..k];
      assert Fields(s) == [s[..k]] + Fields(s[k..]);
    }
  }

  /** The rest of a word after its first character. */
  lemma WordSlices(s: string)
    requires s != [] && s[0] != ' '
    ensures var k := WordLen(s);
      && k == 1 + WordLen(s[1..])
      && s[1..][..k - 1] == s[1..k]
      && s[1..][k - 1..] == s[k..]
  {
  }

  /** Without quote characters, `tokenize` is splitting on ' ' with the empty
      pieces dropped; tabs and other white space stay inside tokens. */
  lemma QuoteFreeIsFields(s: string)
    requires QuoteFree(s)
    ensures Tokenize(s) == Fields(s)
  {
    ScanQuoteFree("", [], s);
  }

  // ---------------------------------------------------------------------------
  // Lines: strings.Split, strings.TrimSpace, parseCommand, ParseString

  /** `unicode.IsSpace`, the test `strings.TrimSpace` strips by. */
  predicate IsSpace(c: char) {
    c == '\t' || c == '\n' || c == '\U{000B}' || c == '\U{000C}' || c == '\r' || c == ' '
    || c == '\U{0085}' || c == '\U{00A0}' || c == '\U{1680}'
    || ('\U{2000}' <= c <= '\U{200A}')
    || c == '\U{2028}' || c == '\U{2029}' || c == '\U{202F}' || c == '\U{205F}' || c == '\U{3000}'
  }

  function TrimLeft(s: string): string
    decreases |s|
  {
    if s != [] && IsSpace(s[0]) then TrimLeft(s[1..]) else s
  }

  function TrimRight(s: string): string
    decreases |s|
  {
    if s != [] && IsSpace(s[|s| - 1]) then TrimRight(s[..|s| - 1]) else s
  }

  /** `strings.TrimSpace`: the slice of `s` left after dropping leading and
      trailing white space. */
  function TrimSpace(s: string): string {
    TrimRight(TrimLeft(s))
  }

  /** `TrimLeft` drops the leading white space and nothing more. */
  lemma {:induction false} TrimLeftDrops(s: string)
    ensures var r := TrimLeft(s);
      && |r| <= |s| && r == s[|s| - |r|..]
      && (r == [] || !IsSpace(r[0]))
      && forall i | 0 <= i < |s| - |r| :: IsSpace(s[i])
    decreases |s|
  {
    if s != [] && IsSpace(s[0]) {
      TrimLeftDrops(s[1..]);
      var r := TrimLeft(s);
      forall i | 0 <= i < |s| - |r| ensures IsSpace(s[i]) {
        if i > 0 {
          assert s[i] == s[1..][i - 1];
        }
      }
    }
  }

  /** `TrimRight` drops the trailing white space and nothing more. */
  lemma {:induction false} TrimRightDrops(s: string)
    ensures var r := TrimRight(s);
      && |r| <= |s| && r == s[..|r|]
      && (r == [] || !IsSpace(r[|r| - 1]))
      && forall i | |r| <= i < |s| :: IsSpace(s[i])
    decreases |s|
  {
    if s != [] && IsSpace(s[|s| - 1]) {
      var init := s[..|s| - 1];
      TrimRightDrops(init);
      var r := TrimRight(s);
      assert init[..|r|] == s[..|r|];
      forall i | |r| <= i < |s| ensures IsSpace(s[i]) {
        if i < |s| - 1 {
          assert s[i] == init[i];
        }
      }
    }
  }

  /** `TrimSpace(s)` is the slice `s[a..b]` that starts and ends with a
      character other than white space, and everything outside it is white
      space. */
  lemma TrimSpaceSlice(s: string)
    ensures var r := TrimSpace(s); var a := |s| - |TrimLeft(s)|; var b := a + |r|;
      && 0 <= a && b <= |s| && r == s[a..b]
      && (r == [] || (!IsSpace(r[0]) && !IsSpace(r[|r| - 1])))
      && (forall i | 0 <= i < a :: IsSpace(s[i]))
      && (forall i | b <= i < |s| :: IsSpace(s[i]))
  {
    var l := TrimLeft(s);
    TrimLeftDrops(s);
    TrimRightDrops(l);
    var r := TrimSpace(s);
    var a := |s| - |l|;
    if r != [] {
      assert r[0] == l[0];
    }
    forall i | a + |r| <= i < |s| ensures IsSpace(s[i]) {
      assert s[i] == l[i - a];
    }
  }

  /** `strings.Split(s, "\n")`. */
  function SplitLines(s: string): (lines: seq<string>)
    ensures |lines| >= 1
    ensures forall l | l in lines :: '\n' !in l
    ensures JoinLines(lines) == s
    decreases |s|
  {
    if '\n' in s then
      var i := IndexOfNewline(s);
      [s[..i]] + SplitLines(s[i + 1..])
    else
      [s]
  }

  function IndexOfNewline(s: string): (i: nat)
    requires '\n' in s
    ensures i < |s| && s[i] == '\n' && '\n' !in s[..i]
  {
    if s[0] == '\n' then 0
    else
      assert '\n' in s[1..] by { var j :| 0 <= j < |s| && s[j] == '\n'; assert s[1..][j - 1] == '\n'; }
      var i := 1 + IndexOfNewline(s[1..]);
      assert s[..i] == [s[0]] + s[1..][..i - 1];
      i
  }

  /** `strings.Join(lines, "\n")`. */
  function JoinLines(lines: seq<string>): string
    requires |lines| >= 1
  {
    if |lines| == 1 then lines[0] else lines[0] + "\n" + JoinLines(lines[1..])
  }

  /** The lines `ParseString` skips: blank after trimming, or a comment. */
  predicate IsSkipped(line: string) {
    var t := TrimSpace(line);
    t == "" || t[0] == '#'
  }

  /** `parseCommand`: no node for a line without tokens. */
  function ParseCommand(line: string, lineNum: int): (r: Option<CommandNode>)
    ensures r.None? <==> Tokenize(line) == []
    ensures r.Some? ==>
      [r.value.name] + r.value.args == Tokenize(line) && r.value.pos == Position(lineNum, 1, 0) && r.value.redirect.None?
  {
    var tokens := Tokenize(line);
    if |tokens| == 0 then None
    else Some(CommandNode(Position(lineNum, 1, 0), tokens[0], tokens[1..], None))
  }

  /** The node the line numbered `lineNum` contributes, if any. */
  function LineNodes(line: string, lineNum: int): seq<Node> {
    if IsSkipped(line) then []
    else match ParseCommand(TrimSpace(line), lineNum)
      case None => []
      case Some(c) => [Command(c)]
  }

  /** The nodes of the first |lines| lines, numbered from 1. */
  function ParseLines(lines: seq<string>): seq<Node>
    decreases |lines|
  {
    if lines == [] then []
    else ParseLines(lines[..|lines| - 1]) + LineNodes(lines[|lines| - 1], |lines|)
  }

  const ScriptStart := Position(1, 1, 0)

  /** `ParseString`: never an error; one node per command line, in order. */
  method ParseString(source: string) returns (script: ScriptNode, err: Option<string>)
    ensures err.None?
    ensures script == ScriptNode(ScriptStart, ParseLines(SplitLines(source)))
  {
    var lines := SplitLines(source);
    var nodes: seq<Node> := [];
    var lineNum := 0;
    while lineNum < |lines|
      invariant 0 <= lineNum <= |lines|
      invariant nodes == ParseLines(lines[..lineNum])
    {
      var line := TrimSpace(lines[lineNum]);
      ghost var step := LineNodes(lines[lineNum], lineNum + 1);
      assert ParseLines(lines[..lineNum + 1]) == nodes + step by {
        assert lines[..lineNum + 1][..lineNum] == lines[..lineNum];
      }
      if !(line == "" || line[0] == '#') {
        var tokens := TokenizeLine(line);
        if |tokens| != 0 {
          var cmd := CommandNode(Position(lineNum + 1, 1, 0), tokens[0], tokens[1..], None);
          assert step == [Command(cmd)];
          nodes := nodes + [Command(cmd)];
        } else {
          assert step == [];
          assert nodes + step == nodes;
        }
      } else {
        assert step == [];
        assert nodes + step == nodes;
      }
      lineNum := lineNum + 1;
    }
    assert lines[..lineNum] == lines;
    script := ScriptNode(ScriptStart, nodes);
    err := None;
  }

  // ---------------------------------------------------------------------------
  // Properties of ParseString

  /** A line `ParseString` turns into a node: not skipped, with some token. */
  predicate IsCommandLine(line: string) {
    !IsSkipped(line) && Tokenize(TrimSpace(line)) != []
  }

  /** The node built for line `j` (0-based) when it is a command line. */
  function NodeOfLine(lines: seq<string>, j: nat): (n: Node)
    requires j < |lines| && IsCommandLine(lines[j])
    ensures n.Command? && n.cmd.redirect.None? && n.cmd.pos.line == j + 1
  {
    Command(ParseCommand(TrimSpace(lines[j]), j + 1).value)
  }

  /** `n` is the node of one of the command lines of `lines`. */
  predicate ComesFromLine(lines: seq<string>, n: Node) {
    && n.Command?
    && 1 <= n.cmd.pos.line <= |lines|
    && IsCommandLine(lines[n.cmd.pos.line - 1])
    && n == NodeOfLine(lines, n.cmd.pos.line - 1)
  }

  lemma ComesFromLonger(lines: seq<string>, more: seq<string>, n: Node)
    requires ComesFromLine(lines, n)
    ensures ComesFromLine(lines + more, n)
  {
    var i := n.cmd.pos.line - 1;
    assert (lines + more)[i] == lines[i];
    assert NodeOfLine(lines + more, i) == NodeOfLine(lines, i);
  }

  /** Every parsed node is a plain command (no pipe, no redirect: `|`, `;` and
      `>` are ordinary characters) built from some command line, at that
      line's 1-based number, and there are never more nodes than lines. */
  lemma {:induction false} ParsedNodesComeFromLines(lines: seq<string>)
    ensures |ParseLines(lines)| <= |lines|
    ensures forall n | n in ParseLines(lines) :: ComesFromLine(lines, n) && n.cmd.redirect.None?
    decreases |lines|
  {
    if lines != [] {
      var init := lines[..|lines| - 1];
      var last := lines[|lines| - 1];
      assert lines == init + [last];
      ParsedNodesComeFromLines(init);
      forall n | n in ParseLines(init) ensures ComesFromLine(lines, n) {
        ComesFromLonger(init, [last], n);
      }
    }
  }

  /** Conversely, every command line yields its node. */
  lemma {:induction false} CommandLineIsParsed(lines: seq<string>, j: nat)
    requires j < |lines| && IsCommandLine(lines[j])
    ensures NodeOfLine(lines, j) in ParseLines(lines)
    decreases |lines|
  {
    var init := lines[..|lines| - 1];
    if j == |lines| - 1 {
      assert LineNodes(lines[j], |lines|) == [NodeOfLine(lines, j)];
    } else {
      assert init[j] == lines[j];
      CommandLineIsParsed(init, j);
      assert NodeOfLine(init, j) == NodeOfLine(lines, j);
    }
  }

  /** Skipped lines (blank or comment) and lines without tokens add nothing. */
  lemma SkippedLinesAddNothing(lines: seq<string>, line: string)
    requires !IsCommandLine(line)
    ensures ParseLines(lines + [line]) == ParseLines(lines)
  {
    assert (lines + [line])[..|lines|] == lines;
  }

  /** A parsed node prints as its first token and reports its line. */
  lemma ParsedNodeAccessors(lines: seq<string>, j: nat)
    requires j < |lines| && IsCommandLine(lines[j])
    ensures NodeOfLine(lines, j).String() == Tokenize(TrimSpace(lines[j]))[0]
    ensures NodeOfLine(lines, j).GetPosition() == Position(j + 1, 1, 0)
  {
  }
}
