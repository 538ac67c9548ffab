/**
  The dotenv reader of `shared/src/secrets.ts`: `parseEnvFile`, `unquote`, `findClosingQuote` and
  `unescapeDoubleQuoted`. The two regular expressions become functions; the assignment one is proved
  equal to the language it denotes.
 */
module Dotenv {
  import opened JsText
  import opened Sequences
  import opened Wrappers

  // ----- characters -----

  /** What `.` does not match. */
  predicate IsTerminator(c: char) { c == '\n' || c == '\r' || c == '\U{2028}' || c == '\U{2029}' }

  predicate NoBreaks(s: string) { '\n' !in s && '\r' !in s }

  predicate OneLine(s: string) { forall c | c in s :: !IsTerminator(c) }

  predicate NameStart(c: char) { 'A' <= c <= 'Z' || 'a' <= c <= 'z' || c == '_' }

  predicate NameChar(c: char) { NameStart(c) || '0' <= c <= '9' }

  predicate IsName(s: string) { s != "" && NameStart(s[0]) && forall c | c in s :: NameChar(c) }

  // ----- lines -----

  /** `contents.split(/\r?\n/)`. */
  function Lines(s: string): (lines: seq<string>)
    ensures lines != []
  {
    if s == "" then [""]
    else if s[0] == '\n' then [""] + Lines(s[1..])
    else if |s| > 1 && s[0] == '\r' && s[1] == '\n' then [""] + Lines(s[2..])
    else
      var rest := Lines(s[1..]);
      [[s[0]] + rest[0]] + rest[1..]
  }

  function JoinLines(lines: seq<string>): string {
    if lines == [] then ""
    else if |lines| == 1 then lines[0]
    else lines[0] + "\n" + JoinLines(lines[1..])
  }

  lemma {:induction false} LinesOfJoin(lines: seq<string>)
    requires lines != [] && forall l | l in lines :: NoBreaks(l)
    ensures Lines(JoinLines(lines)) == lines
  {
    if |lines| == 1 {
      LinesAfter(lines[0], "");
      assert lines[0] + "" == lines[0];
    } else {
      LinesOfJoin(lines[1..]);
      var rest := "\n" + JoinLines(lines[1..]);
      assert JoinLines(lines) == lines[0] + rest;
      assert rest[1..] == JoinLines(lines[1..]);
      LinesAfter(lines[0], rest);
      assert ([""] + lines[1..])[1..] == lines[1..];
      assert lines[0] + "" == lines[0] && lines == [lines[0]] + lines[1..];
    }
  }

  /** A prefix without line breaks goes to the first line. */
  lemma {:induction false} LinesAfter(a: string, rest: string)
    requires NoBreaks(a)
    ensures Lines(a + rest) == [a + Lines(rest)[0]] + Lines(rest)[1..]
  {
    if a == "" {
      assert a + rest == rest;
      assert "" + Lines(rest)[0] == Lines(rest)[0];
    } else {
      assert a[0] in a;
      assert (a + rest)[1..] == a[1..] + rest;
      LinesAfter(a[1..], rest);
      assert [a[0]] + (a[1..] + Lines(rest)[0]) == a + Lines(rest)[0];
    }
  }

  // ----- the assignment pattern -----

  function NameLen(s: string): (n: nat)
    ensures n <= |s|
  {
    if s == "" || !NameChar(s[0]) then 0 else 1 + NameLen(s[1..])
  }

  const EXPORT := "export"

  /** After `^\s*(?:export\s+)?`. The group is taken exactly when a name follows it. */
  function SkipExport(s: string): string {
    if EXPORT < s && IsSpace(s[6]) then
      var t := SkipSpace(s[6..]);
      if t != "" && NameStart(t[0]) then t else s
    else s
  }

  /** `([A-Za-z_][A-Za-z0-9_]*)\s*=(.*)$`. */
  function MatchName(s: string): Option<(string, string)> {
    var n := NameLen(s);
    var t := SkipSpace(s[n..]);
    if n == 0 || !NameStart(s[0]) || t == "" || t[0] != '=' || !OneLine(t[1..]) then None
    else Some((s[..n], t[1..]))
  }

  function MatchAssignment(line: string): Option<(string, string)> {
    MatchName(SkipExport(SkipSpace(line)))
  }

  /** The language of the pattern: space, perhaps `export` and space, a name, space, `=`, and the rest of
      one line. */
  ghost predicate IsAssignment(line: string, name: string, value: string) {
    exists a, b, c :: Decomposes(line, a, b, name, c, value)
  }

  predicate ExportPart(b: string) {
    b == "" || (EXPORT < b && AllSpace(b[6..]))
  }

  ghost predicate Decomposes(line: string, a: string, b: string, name: string, c: string, value: string) {
    && AllSpace(a) && ExportPart(b) && IsName(name) && AllSpace(c) && OneLine(value)
    && line == a + (b + (name + (c + (['='] + value))))
  }

  lemma {:induction false} NameLenOf(name: string, rest: string)
    requires (forall c | c in name :: NameChar(c)) && (rest == "" || !NameChar(rest[0]))
    ensures NameLen(name + rest) == |name| && (name + rest)[..|name|] == name && (name + rest)[|name|..] == rest
  {
    if name == "" {
      assert name + rest == rest;
    } else {
      assert name[0] in name && (name + rest)[1..] == name[1..] + rest;
      NameLenOf(name[1..], rest);
    }
  }

  lemma {:induction false} NameLenSplits(s: string)
    ensures forall c | c in s[..NameLen(s)] :: NameChar(c)
  {
    if s != "" && NameChar(s[0]) {
      NameLenSplits(s[1..]);
      var n := NameLen(s);
      assert s[..n] == [s[0]] + s[1..][..n - 1];
    }
  }

  /** The reader finds a name and a value in a line if and only if the pattern matches it that way; in
      particular it can match in one way at most. */
  lemma AssignmentIff(line: string, name: string, value: string)
    ensures MatchAssignment(line) == Some((name, value)) <==> IsAssignment(line, name, value)
  {
    if MatchAssignment(line) == Some((name, value)) {
      var a, b, c := FindParts(line, name, value);
      assert IsAssignment(line, name, value);
    }
    if IsAssignment(line, name, value) {
      var a, b, c :| Decomposes(line, a, b, name, c, value);
      MatchParts(line, a, b, name, c, value);
    }
  }

  lemma FindParts(line: string, name: string, value: string) returns (a: string, b: string, c: string)
    requires MatchAssignment(line) == Some((name, value))
    ensures Decomposes(line, a, b, name, c, value)
  {
    var s := SkipSpace(line);
    var body := SkipExport(s);
    a := FindSpace(line);
    b := FindExport(s);
    c := FindName(body, name, value);
    assert line == a + s && s == b + body && body == name + (c + (['='] + value));
  }

  lemma FindSpace(s: string) returns (a: string)
    ensures AllSpace(a) && s == a + SkipSpace(s)
  {
    SpaceLenSplits(s);
    a := s[..SpaceLen(s)];
  }

  lemma FindExport(s: string) returns (b: string)
    ensures ExportPart(b) && s == b + SkipExport(s)
  {
    b := "";
    if SkipExport(s) != s {
      var gap := s[6..];
      SpaceLenSplits(gap);
      b := s[..6 + SpaceLen(gap)];
      assert b[6..] == gap[..SpaceLen(gap)];
      assert b[..6] == s[..6] == EXPORT;
      assert SpaceLen(gap) >= 1;
    }
  }

  lemma FindName(s: string, name: string, value: string) returns (c: string)
    requires MatchName(s) == Some((name, value))
    ensures IsName(name) && AllSpace(c) && OneLine(value) && s == name + (c + (['='] + value))
  {
    NameLenSplits(s);
    var tail := s[NameLen(s)..];
    SpaceLenSplits(tail);
    c := tail[..SpaceLen(tail)];
    var t := SkipSpace(tail);
    assert t == ['='] + value && tail == c + t && s == name + tail;
  }

  lemma MatchParts(line: string, a: string, b: string, name: string, c: string, value: string)
    requires Decomposes(line, a, b, name, c, value)
    ensures MatchAssignment(line) == Some((name, value))
  {
    var t := ['='] + value;
    var body := name + (c + t);
    var s := b + body;
    MatchBody(name, c, value);
    SkipExportPart(b, name, c, t);
    assert s != "" && !IsSpace(s[0]) by {
      NameStartIsNotSpace(name[0]);
      if b != "" {
        assert s[0] == b[0] == EXPORT[0];
      }
    }
    SpaceLenOf(a, s);
  }

  lemma MatchBody(name: string, c: string, value: string)
    requires IsName(name) && AllSpace(c) && OneLine(value)
    ensures MatchName(name + (c + (['='] + value))) == Some((name, value))
  {
    var t := ['='] + value;
    assert (name + (c + t))[0] == name[0];
    SpaceIsNotName(c + t);
    SpaceLenOf(c, t);
    NameLenOf(name, c + t);
    assert t[1..] == value;
  }

  lemma SkipExportPart(b: string, name: string, c: string, t: string)
    requires ExportPart(b) && IsName(name) && AllSpace(c) && t != "" && t[0] == '='
    ensures SkipExport(b + (name + (c + t))) == name + (c + t)
  {
    var body := name + (c + t);
    var s := b + body;
    if b == "" {
      assert s == body;
      ExportIsTaken(name, c, t);
    } else {
      assert body[0] == name[0];
      NameStartIsNotSpace(name[0]);
      assert s[6..] == b[6..] + body;
      SpaceLenOf(b[6..], body);
      assert EXPORT <= b && b[..6] == EXPORT && s[..6] == b[..6];
      assert s[6] == b[6] && b[6] == b[6..][0] && b[6..][0] in b[6..];
    }
  }

  lemma NameStartIsNotSpace(c: char)
    requires NameChar(c)
    ensures !IsSpace(c)
  {
  }

  lemma SpaceIsNotName(s: string)
    requires s != "" && (IsSpace(s[0]) || s[0] == '=')
    ensures !NameChar(s[0])
  {
  }

  /** Without the group, `export` is a name, and no name follows it. */
  lemma ExportIsTaken(name: string, c: string, t: string)
    requires IsName(name) && AllSpace(c) && t != "" && t[0] == '='
    ensures SkipExport(name + (c + t)) == name + (c + t)
  {
    var s := name + (c + t);
    if EXPORT < s && IsSpace(s[6]) {
      SpaceIsNotName(c + t);
      NameLenOf(name, c + t);
      SpaceIsNotName(s[6..]);
      NameLenOf(EXPORT, s[6..]);
      assert s == EXPORT + s[6..];
      assert s[6..] == c + t;
      SpaceLenOf(c, t);
    }
  }

  // ----- values -----

  predicate Escapable(c: char) { c == 'n' || c == 'r' || c == 't' || c == '\\' || c == '"' || c == '\'' }

  function Unescaped(c: char): char {
    if c == 'n' then '\n' else if c == 'r' then '\r' else if c == 't' then '\t' else c
  }

  /** `inner.replace(/\\([nrt\\"'])/g, ...)`. */
  function Unescape(s: string): string {
    if s == "" then ""
    else if s[0] == '\\' && |s| > 1 && Escapable(s[1]) then [Unescaped(s[1])] + Unescape(s[2..])
    else [s[0]] + Unescape(s[1..])
  }

  /** The closing quote, from index `i` on. */
  function ClosingQuote(value: string, quote: char, i: nat): Option<nat>
    decreases |value| - i
  {
    if i >= |value| then None
    else if value[i] == '\\' && quote == '"' then ClosingQuote(value, quote, i + 2)
    else if value[i] == quote then Some(i)
    else ClosingQuote(value, quote, i + 1)
  }

  /** `findClosingQuote`. */
  method FindClosingQuote(value: string, quote: char) returns (closing: int)
    ensures closing == match ClosingQuote(value, quote, 1) case Some(k) => k case None => -1
    ensures closing == -1 || 1 <= closing < |value|
  {
    var i := 1;
    while i < |value|
      invariant i >= 1 && ClosingQuote(value, quote, 1) == ClosingQuote(value, quote, i)
      decreases |value| - i
    {
      if value[i] == '\\' && quote == '"' {
        i := i + 2;
        continue;
      }
      if value[i] == quote {
        return i;
      }
      i := i + 1;
    }
    return -1;
  }

  lemma {:induction false} ClosingQuoteBounds(value: string, quote: char, i: nat)
    ensures var k := ClosingQuote(value, quote, i); k.Some? ==> i <= k.value < |value| && value[k.value] == quote
    decreases |value| - i
  {
    if i < |value| && !(value[i] == quote && !(value[i] == '\\' && quote == '"')) {
      ClosingQuoteBounds(value, quote, if value[i] == '\\' && quote == '"' then i + 2 else i + 1);
    }
  }

  /** `/ +#/.exec(value)`: where a run of spaces before a `#` starts. */
  function CommentStart(s: string): Option<nat> {
    if s == "" then None
    else if s[0] == ' ' && HashAfterSpaces(s) then Some(0)
    else match CommentStart(s[1..]) case Some(k) => Some(k + 1) case None => None
  }

  predicate HashAfterSpaces(s: string) {
    s != "" && (s[0] == '#' || (s[0] == ' ' && HashAfterSpaces(s[1..])))
  }

  predicate IsQuote(c: char) { c == '"' || c == '\'' }

  function Unquote(raw: string): string {
    var value := Trim(raw);
    if value == "" then ""
    else if IsQuote(value[0]) && ClosingQuote(value, value[0], 1).Some? then
      ClosingQuoteBounds(value, value[0], 1);
      var inner := value[1..ClosingQuote(value, value[0], 1).value];
      if value[0] == '"' then Unescape(inner) else inner
    else Uncommented(value)
  }

  function Uncommented(value: string): string {
    match CommentStart(value)
    case Some(k) => CommentStartBounds(value); Trim(value[..k])
    case None => Trim(value)
  }

  lemma {:induction false} CommentStartBounds(s: string)
    ensures CommentStart(s).Some? ==> CommentStart(s).value < |s|
  {
    if s != "" {
      CommentStartBounds(s[1..]);
    }
  }

  // ----- line ends -----

  /** Lines with either line end after each but the last. */
  function JoinMixed(lines: seq<string>, crlf: seq<bool>): string
    requires |lines| == |crlf| + 1
  {
    if crlf == [] then lines[0] else lines[0] + (if crlf[0] then "\r\n" else "\n") + JoinMixed(lines[1..], crlf[1..])
  }

  /** Both line ends, in any mix, end lines. */
  lemma {:induction false} EitherLineEnd(lines: seq<string>, crlf: seq<bool>)
    requires |lines| == |crlf| + 1 && forall l | l in lines :: NoBreaks(l)
    ensures Lines(JoinMixed(lines, crlf)) == lines
    decreases |crlf|
  {
    if crlf == [] {
      LinesAfter(lines[0], "");
      assert lines[0] + "" == lines[0];
    } else {
      EitherLineEnd(lines[1..], crlf[1..]);
      var end, more := if crlf[0] then "\r\n" else "\n", JoinMixed(lines[1..], crlf[1..]);
      LinesAfter(lines[0], end + more);
      assert JoinMixed(lines, crlf) == lines[0] + (end + more);
      assert (end + more)[|end|..] == more;
      assert Lines(end + more) == [""] + lines[1..];
      assert ([""] + lines[1..])[1..] == lines[1..];
      assert lines[0] + "" == lines[0] && lines == [lines[0]] + lines[1..];
    }
  }

  /** Only the listed escapes are undone; any other backslash stays, and with it what follows. */
  lemma UnescapeIff(c: char, rest: string)
    ensures var undone := Unescape("\\" + [c] + rest);
            match c
            case 'n' => undone == "\n" + Unescape(rest)
            case 'r' => undone == "\r" + Unescape(rest)
            case 't' => undone == "\t" + Unescape(rest)
            case _ =>
              if c == '\\' || c == '"' || c == '\'' then undone == [c] + Unescape(rest)
              else undone == "\\" + Unescape([c] + rest) && (c != '\\' ==> undone == "\\" + [c] + Unescape(rest))
  {
    var s := "\\" + [c] + rest;
    assert s[0] == '\\' && s[1] == c && s[2..] == rest && s[1..] == [c] + rest;
    assert ([c] + rest)[1..] == rest;
  }
  // ----- which `#` starts a comment -----

  predicate SpaceHash(s: string, i: nat) { 0 < i < |s| && s[i - 1] == ' ' && s[i] == '#' }

  /** What the source's own comment promises: white space before the `#`. */
  predicate BlankHash(s: string, i: nat) { 0 < i < |s| && IsSpace(s[i - 1]) && s[i] == '#' }

  lemma {:induction false} HashRun(s: string) returns (n: nat)
    requires HashAfterSpaces(s)
    ensures n < |s| && s[n] == '#' && forall j | 0 <= j < n :: s[j] == ' '
  {
    n := 0;
    if s[0] != '#' {
      n := HashRun(s[1..]);
      n := n + 1;
      assert forall j | 0 < j < n :: s[j] == s[1..][j - 1];
    }
  }

  /** The match starts with the run of spaces before the first `#` that a space precedes. */
  lemma {:induction false} FirstCommentAt(s: string, i: nat) returns (k: nat)
    requires SpaceHash(s, i) && forall j | 0 <= j < i :: !SpaceHash(s, j)
    ensures k < i && CommentStart(s) == Some(k) && forall j | k <= j < i :: s[j] == ' '
  {
    if s[0] == ' ' && HashAfterSpaces(s) {
      var n := HashRun(s);
      assert SpaceHash(s, n);
      k := 0;
    } else {
      var t := s[1..];
      assert i != 1 by {
        if i == 1 {
          assert HashAfterSpaces(t);
        }
      }
      forall j | 0 <= j < i - 1 ensures !SpaceHash(t, j) {
        assert !SpaceHash(s, j + 1);
      }
      k := FirstCommentAt(t, i - 1);
      k := k + 1;
      assert forall j | k <= j < i :: s[j] == t[j - 1];
    }
  }

  lemma {:induction false} CommentRun(s: string) returns (i: nat)
    requires CommentStart(s).Some?
    ensures var k := CommentStart(s).value; k < i && SpaceHash(s, i) && forall j | k <= j < i :: s[j] == ' '
  {
    if s[0] == ' ' && HashAfterSpaces(s) {
      i := HashRun(s);
    } else {
      var t := s[1..];
      i := CommentRun(t);
      var k := CommentStart(s).value;
      assert forall j | k <= j < i + 1 :: s[j] == t[j - 1];
      i := i + 1;
    }
  }

  /** What an unquoted value becomes, when white space comes before a `#` in it: the text before that
      `#`, as the comment in the source has it, exactly if the white space is a space. After a tab the
      `#` is kept, and with it what follows. */
  lemma CommentIff(value: string, i: nat)
    requires value != "" && !IsSpace(value[0])
    requires BlankHash(value, i) && forall j | 0 <= j < i :: !BlankHash(value, j)
    ensures Uncommented(value) == Trim(value[..i]) <==> value[i - 1] == ' '
  {
    if value[i - 1] == ' ' {
      forall j | 0 <= j < i ensures !SpaceHash(value, j) {
        assert !BlankHash(value, j);
      }
      var k := FirstCommentAt(value, i);
      TrimRun(value[..i], k);
      assert value[..i][..k] == value[..k];
    } else {
      TrimShortens(value[..i]);
      LaterCommentKeeps(value, i);
    }
  }

  lemma NoSpaceHash(value: string)
    requires forall i: nat :: !SpaceHash(value, i)
    ensures CommentStart(value).None?
  {
    if CommentStart(value).Some? {
      var i := CommentRun(value);
      assert false;
    }
  }

  /** So a tab keeps what a space would cut. */
  lemma TabsStartNoComment()
    ensures Unquote("a\t#b") == "a\t#b" && Unquote("a #b") == "a"
  {
    var tab, space := "a\t#b", "a #b";
    TrimNothing(tab);
    TrimNothing(space);
    NoSpaceHash(tab);
    assert !SpaceHash(space, 0) && !SpaceHash(space, 1);
    var k := FirstCommentAt(space, 2);
    assert k == 1 && space[..1] == "a";
    TrimNothing("a");
  }

  /** A value without such a `#` has no comment. */
  lemma NoCommentKeepsAll(value: string)
    requires forall i: nat :: !BlankHash(value, i)
    ensures Uncommented(value) == Trim(value)
  {
    forall i: nat ensures !SpaceHash(value, i) {
      assert !BlankHash(value, i);
    }
    NoSpaceHash(value);
  }

  lemma LaterCommentKeeps(value: string, i: nat)
    requires value != "" && !IsSpace(value[0]) && i < |value| && value[i] == '#' && !SpaceHash(value, i)
    requires forall j | 0 <= j < i :: !BlankHash(value, j)
    ensures |Uncommented(value)| > i
  {
    if CommentStart(value).Some? {
      var k := CommentStart(value).value;
      var j := CommentRun(value);
      assert BlankHash(value, j);
      assert j > i && k > i;
      CommentStartBounds(value);
      TrimKeeps(value[..k], i);
    } else {
      TrimKeeps(value, i);
    }
  }

  lemma TrimKeeps(s: string, i: nat)
    requires i < |s| && !IsSpace(s[0]) && !IsSpace(s[i])
    ensures |Trim(s)| > i
  {
    assert SkipSpace(s) == s;
    TrimEndKeeps(s, i);
  }

  lemma {:induction false} TrimEndKeeps(s: string, i: nat)
    requires i < |s| && !IsSpace(s[i])
    ensures |TrimEnd(s)| > i
  {
    if IsSpace(Last(s)) {
      TrimEndKeeps(Front(s), i);
    }
  }

  lemma TrimShortens(s: string)
    ensures |Trim(s)| <= |s|
  {
    TrimEndShortens(SkipSpace(s));
  }

  lemma {:induction false} TrimEndShortens(s: string)
    ensures |TrimEnd(s)| <= |s|
  {
    if s != "" && IsSpace(Last(s)) {
      TrimEndShortens(Front(s));
    }
  }

  /** Spaces at the end make no difference to `trim`. */
  lemma {:induction false} TrimRun(s: string, k: nat)
    requires k <= |s| && s != "" && !IsSpace(s[0]) && forall j | k <= j < |s| :: s[j] == ' '
    ensures Trim(s) == Trim(s[..k])
    decreases |s|
  {
    if k == |s| {
      assert s[..k] == s;
    } else {
      var front := Front(s);
      assert Last(s) == ' ' && front != "" && front[0] == s[0];
      TrimRun(front, k);
      assert front[..k] == s[..k];
      assert SkipSpace(s) == s && SkipSpace(front) == front;
    }
  }

  // ----- the file -----

  type Env = map<string, string>

  const PROTO := "__proto__"

  /** `out[name] = value` on a plain object: `__proto__` names its setter, which ignores strings. */
  function Assign(env: Env, name: string, value: string): Env {
    if name == PROTO then env else env[name := value]
  }

  function Ignored(line: string): bool {
    var t := Trim(line);
    t == "" || t[0] == '#'
  }

  /** One line, numbered `n`. */
  function ReadLine(before: Result<Env, nat>, line: string, n: nat): Result<Env, nat> {
    match before
    case Err(k) => Err(k)
    case Ok(env) =>
      if Ignored(line) then Ok(env)
      else
        match MatchAssignment(line)
        case None => Err(n)
        case Some((name, raw)) => Ok(Assign(env, name, Unquote(raw)))
  }

  /** The map of the lines, or the number of the first malformed one. */
  function ReadLines(lines: seq<string>): Result<Env, nat> {
    if lines == [] then Ok(map[]) else ReadLine(ReadLines(Front(lines)), Last(lines), |lines|)
  }

  /** `parseEnvFile`. */
  method ParseEnvFile(contents: string) returns (r: Result<Env, nat>)
    ensures r == ReadLines(Lines(contents))
  {
    var out: Env := map[];
    var lines := Lines(contents);
    for i := 0 to |lines|
      invariant ReadLines(lines[..i]) == Ok(out)
    {
      var raw := lines[i];
      ReadLinesStep(lines, i);
      var trimmed := Trim(raw);
      if trimmed == "" || trimmed[0] == '#' {
        continue;
      }
      var matched := MatchAssignment(raw);
      if matched.None? {
        assert ReadLines(lines[..i + 1]) == Err(i + 1);
        ErrorStays(lines, i + 1);
        return Err(i + 1);
      }
      out := Assign(out, matched.value.0, Unquote(matched.value.1));
    }
    assert lines[..|lines|] == lines;
    return Ok(out);
  }

  lemma ReadLinesStep(lines: seq<string>, i: nat)
    requires i < |lines|
    ensures ReadLines(lines[..i + 1]) == ReadLine(ReadLines(lines[..i]), lines[i], i + 1)
  {
    assert Front(lines[..i + 1]) == lines[..i];
  }

  lemma {:induction false} ErrorStays(lines: seq<string>, i: nat)
    requires i <= |lines| && ReadLines(lines[..i]).Err?
    ensures ReadLines(lines) == ReadLines(lines[..i])
  {
    if i == |lines| {
      assert lines[..i] == lines;
    } else {
      assert Front(lines)[..i] == lines[..i];
      ErrorStays(Front(lines), i);
    }
  }

  // ----- printing -----

  function EscapeChar(c: char): string {
    if c == '\n' then "\\n" else if c == '\r' then "\\r" else if c == '\t' then "\\t"
    else if c == '\\' then "\\\\" else if c == '"' then "\\\"" else [c]
  }

  function Escape(s: string): string {
    if s == "" then "" else EscapeChar(s[0]) + Escape(s[1..])
  }

  /** Unescaping inverts escaping. */
  lemma {:induction false} UnescapeEscape(s: string)
    ensures Unescape(Escape(s)) == s
  {
    if s != "" {
      UnescapeEscape(s[1..]);
      var e, rest := EscapeChar(s[0]), Escape(s[1..]);
      if |e| == 2 {
        assert (e + rest)[1] == e[1] && (e + rest)[2..] == rest;
        assert Escapable(e[1]);
      } else {
        assert (e + rest)[1..] == rest;
      }
    }
  }

  /** The closing quote of an escaped value is the one after it, not one of its own. */
  lemma {:induction false} ClosingQuoteIsTheTrueOne(before: string, s: string, after: string)
    ensures ClosingQuote(before + Escape(s) + "\"" + after, '"', |before|) == Some(|before| + |Escape(s)|)
    decreases |s|
  {
    var all := before + Escape(s) + "\"" + after;
    if s != "" {
      var e := EscapeChar(s[0]);
      ClosingQuoteIsTheTrueOne(before + e, s[1..], after);
      assert (before + e) + Escape(s[1..]) + "\"" + after == all;
      assert all[|before|] == e[0];
    } else {
      assert all[|before|] == '"';
    }
  }

  datatype Style = Double | Single | Bare

  datatype Binding = Binding(exported: bool, style: Style, name: string, value: string)

  function PrintValue(b: Binding): string {
    match b.style
    case Double => "\"" + Escape(b.value) + "\""
    case Single => "'" + b.value + "'"
    case Bare => b.value
  }

  function PrintLine(b: Binding): string {
    (if b.exported then "export " else "") + (b.name + ("=" + PrintValue(b)))
  }

  function PrintLines(bs: seq<Binding>): seq<string> {
    if bs == [] then [] else PrintLines(Front(bs)) + [PrintLine(Last(bs))]
  }

  function Print(bs: seq<Binding>): string { JoinLines(PrintLines(bs)) }

  /** No U+2028 or U+2029: they are line terminators, and no escape stands for them. */
  predicate NoSeparators(s: string) { '\U{2028}' !in s && '\U{2029}' !in s }

  /** No space that is followed by spaces and a `#`. */
  predicate NoComment(s: string) { CommentStart(s).None? }

  /** What each style can carry. */
  predicate Fits(b: Binding) {
    match b.style
    case Double => NoSeparators(b.value)
    case Single => OneLine(b.value) && '\'' !in b.value
    case Bare =>
      && OneLine(b.value) && NoComment(b.value)
      && (b.value != "" ==> !IsQuote(b.value[0]) && !IsSpace(b.value[0]) && !IsSpace(Last(b.value)))
  }

  function LastWins(bs: seq<Binding>): Env {
    if bs == [] then map[] else LastWins(Front(bs))[Last(bs).name := Last(bs).value]
  }

  /** The map without the bindings of `__proto__`. */
  function Recorded(bs: seq<Binding>): Env {
    if bs == [] then map[] else Assign(Recorded(Front(bs)), Last(bs).name, Last(bs).value)
  }

  lemma {:induction false} SingleQuoteCloses(s: string, before: string)
    requires '\'' !in s
    ensures ClosingQuote(before + s + "'", '\'', |before|) == Some(|before| + |s|)
    decreases |s|
  {
    var all := before + s + "'";
    if s != "" {
      assert all[|before|] == s[0] && s[0] in s;
      SingleQuoteCloses(s[1..], before + [s[0]]);
      assert (before + [s[0]]) + s[1..] + "'" == all;
    } else {
      assert all[|before|] == '\'';
    }
  }

  /** Each style reads back as the value it prints. */
  lemma UnquotePrinted(b: Binding)
    requires b.style.Double? || Fits(b)
    ensures Unquote(PrintValue(b)) == b.value
  {
    var s := PrintValue(b);
    TrimNothing(s);
    match b.style
    case Double =>
      ClosingQuoteIsTheTrueOne("\"", b.value, "");
      assert "\"" + Escape(b.value) + "\"" + "" == s;
      UnescapeEscape(b.value);
      assert s[1..1 + |Escape(b.value)|] == Escape(b.value);
      assert s[0] == '"';
    case Single =>
      SingleQuoteCloses(b.value, "'");
      assert s[1..1 + |b.value|] == b.value;
      assert s[0] == '\'';
    case Bare =>
  }

  lemma EscapeCharOneLine(c: char)
    ensures OneLine(EscapeChar(c)) <==> c != '\U{2028}' && c != '\U{2029}'
  {
    var e := EscapeChar(c);
    assert e[0] in e;
    assert |e| == 2 ==> e == [e[0], e[1]] && Escapable(e[1]);
  }

  lemma {:induction false} EscapeOneLine(s: string)
    ensures OneLine(Escape(s)) <==> NoSeparators(s)
  {
    if s != "" {
      EscapeOneLine(s[1..]);
      assert s == [s[0]] + s[1..];
      var e, rest := EscapeChar(s[0]), Escape(s[1..]);
      EscapeCharOneLine(s[0]);
      assert forall c :: c in e + rest <==> c in e || c in rest;
      assert forall c :: c in s <==> c == s[0] || c in s[1..];
    }
  }

  lemma PrintedValueOneLine(b: Binding)
    requires b.style.Double? || Fits(b)
    ensures OneLine(PrintValue(b)) <==> Fits(b)
  {
    if b.style.Double? {
      EscapeOneLine(b.value);
      var e, s := Escape(b.value), PrintValue(b);
      assert forall c :: c in s <==> c == '"' || c in e;
    }
    if b.style.Single? {
      assert forall c :: c in PrintValue(b) <==> c == '\'' || c in b.value;
    }
  }

  /** A printed line is read as its binding if the value fits its style, and is malformed if it holds a
      line or paragraph separator. */
  lemma ReadPrintedLine(b: Binding)
    requires IsName(b.name) && (b.style.Double? || Fits(b))
    ensures !Ignored(PrintLine(b))
    ensures MatchAssignment(PrintLine(b)) == if Fits(b) then Some((b.name, PrintValue(b))) else None
  {
    PrintedValueOneLine(b);
    NotIgnored(b);
    PrintedShape(b);
  }

  lemma NotIgnored(b: Binding)
    requires IsName(b.name)
    ensures !Ignored(PrintLine(b))
  {
    var line := PrintLine(b);
    NameStartIsNotSpace(line[0]);
    assert "" + line == line;
    SpaceLenOf("", line);
    TrimEndEnds(line);
  }

  /** Whatever the value, the matcher reaches it. */
  lemma PrintedShape(b: Binding)
    requires IsName(b.name)
    ensures MatchAssignment(PrintLine(b)) == if OneLine(PrintValue(b)) then Some((b.name, PrintValue(b))) else None
  {
    var line, body := PrintLine(b), b.name + ("=" + PrintValue(b));
    MatchPrintedName(b.name, PrintValue(b));
    NameStartIsNotSpace(body[0]);
    assert "" + line == line;
    SpaceLenOf("", line);
    if b.exported {
      SkipPrintedExport(body);
    } else {
      assert line == body;
      ExportIsTaken(b.name, "", "=" + PrintValue(b));
      assert "" + ("=" + PrintValue(b)) == "=" + PrintValue(b);
    }
  }

  lemma MatchPrintedName(name: string, v: string)
    requires IsName(name)
    ensures (name + ("=" + v))[0] == name[0]
    ensures MatchName(name + ("=" + v)) == if OneLine(v) then Some((name, v)) else None
  {
    var t := "=" + v;
    NameLenOf(name, t);
    assert "" + t == t;
    SpaceLenOf("", t);
    assert t[1..] == v;
  }

  lemma SkipPrintedExport(body: string)
    requires body != "" && NameStart(body[0])
    ensures SkipExport("export " + body) == body
  {
    var line := "export " + body;
    NameStartIsNotSpace(body[0]);
    assert line[6..] == " " + body && line[..6] == EXPORT;
    SpaceLenOf(" ", body);
  }

  /** Reading the printed lines gives the recorded map, or the number of the first line whose value does
      not fit. */
  lemma {:induction false} ReadPrintedLines(bs: seq<Binding>)
    requires forall b | b in bs :: IsName(b.name) && (b.style.Double? || Fits(b))
    ensures ReadLines(PrintLines(bs)).Ok? <==> forall b | b in bs :: Fits(b)
    ensures (forall b | b in bs :: Fits(b)) ==> ReadLines(PrintLines(bs)) == Ok(Recorded(bs))
  {
    if bs != [] {
      var b := Last(bs);
      assert forall x :: x in bs <==> x in Front(bs) || x == b;
      ReadPrintedLines(Front(bs));
      ReadPrintedLine(b);
      UnquotePrinted(b);
      assert Front(PrintLines(bs)) == PrintLines(Front(bs));
    }
  }

  lemma {:induction false} EscapeNoBreaks(s: string)
    ensures NoBreaks(Escape(s))
  {
    if s != "" {
      EscapeNoBreaks(s[1..]);
      assert NoBreaks(EscapeChar(s[0]));
    }
  }

  lemma {:induction false} PrintedLinesAreLines(bs: seq<Binding>)
    requires forall b | b in bs :: IsName(b.name) && (b.style.Double? || Fits(b))
    ensures forall l | l in PrintLines(bs) :: NoBreaks(l)
  {
    if bs != [] {
      var b := Last(bs);
      assert b in bs && forall x | x in Front(bs) :: x in bs;
      PrintedLinesAreLines(Front(bs));
      EscapeNoBreaks(b.value);
      var e := if b.exported then "export " else "";
      assert NoBreaks(PrintValue(b)) && NoBreaks(b.name);
      forall c | c in PrintLine(b) ensures c != '\n' && c != '\r' {
        assert c in e || c in b.name || c == '=' || c in PrintValue(b);
      }
    }
  }

  /** What the file holds is what its lines hold. */
  lemma ReadPrinted(bs: seq<Binding>)
    requires forall b | b in bs :: IsName(b.name) && (b.style.Double? || Fits(b))
    ensures ReadLines(Lines(Print(bs))) == ReadLines(PrintLines(bs))
  {
    if bs == [] {
      assert Lines("") == [""] && Front([""]) == [] && Ignored("");
    } else {
      PrintedLinesAreLines(bs);
      LinesOfJoin(PrintLines(bs));
    }
  }

  /** Any list of bindings, each printed in a style that can carry its value, reads back as the map in
      which later bindings win, less the bindings of `__proto__`. */
  lemma ParsePrinted(bs: seq<Binding>)
    requires forall b | b in bs :: IsName(b.name) && Fits(b)
    ensures ReadLines(Lines(Print(bs))) == Ok(LastWins(bs) - {PROTO})
  {
    ReadPrinted(bs);
    ReadPrintedLines(bs);
    RecordedIff(bs);
  }

  /** So the round trip to the last-wins map holds if and only if no name is `__proto__`. */
  lemma RoundTripIff(bs: seq<Binding>)
    requires forall b | b in bs :: IsName(b.name) && Fits(b)
    ensures ReadLines(Lines(Print(bs))) == Ok(LastWins(bs)) <==> forall b | b in bs :: b.name != PROTO
  {
    ParsePrinted(bs);
    RecordedIff(bs);
  }

  lemma {:induction false} RecordedIff(bs: seq<Binding>)
    ensures Recorded(bs) == LastWins(bs) - {PROTO}
    ensures Recorded(bs) == LastWins(bs) <==> forall b | b in bs :: b.name != PROTO
    ensures PROTO in LastWins(bs) <==> exists b :: b in bs && b.name == PROTO
  {
    if bs != [] {
      RecordedIff(Front(bs));
      assert forall x :: x in bs <==> x in Front(bs) || x == Last(bs);
    }
    assert PROTO !in LastWins(bs) - {PROTO};
    assert PROTO !in LastWins(bs) ==> LastWins(bs) - {PROTO} == LastWins(bs);
  }

  /** In the documented double-quoted form, with any values at all: it holds if and only if no name is
      `__proto__` and no value holds U+2028 or U+2029; ASCII values never do. */
  lemma DoubleQuotedRoundTripIff(bs: seq<Binding>)
    requires forall b | b in bs :: IsName(b.name) && b.style.Double?
    ensures ReadLines(Lines(Print(bs))) == Ok(LastWins(bs)) <==>
              forall b | b in bs :: b.name != PROTO && NoSeparators(b.value)
  {
    ReadPrinted(bs);
    ReadPrintedLines(bs);
    RecordedIff(bs);
  }
}
