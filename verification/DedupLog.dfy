/** The log of remembered messages as text: one rendered record a line, read back line by line. */
module DedupLog {
  import opened Options
  import opened Dedup

  // ---- A record as a line ----

  predicate IsPlain(c: char) {
    c >= ' ' && c !in {'"', '\\', '<', '>', '&', '\U{2028}', '\U{2029}'}
  }

  function HexDigit(n: nat): char
    requires n < 16
  {
    "0123456789abcdef"[n]
  }

  function HexOf(n: nat): string
    requires n < 0x10000
  {
    [HexDigit(n / 4096), HexDigit(n / 256 % 16), HexDigit(n / 16 % 16), HexDigit(n % 16)]
  }

  function Escape(c: char): string {
    if IsPlain(c) then [c]
    else if c == '"' then "\\\""
    else if c == '\\' then "\\\\"
    else if c == '\n' then "\\n"
    else if c == '\r' then "\\r"
    else if c == '\t' then "\\t"
    else if c == '\U{8}' then "\\b"
    else if c == '\U{c}' then "\\f"
    else "\\u" + HexOf(c as int)
  }

  function Quote(s: string): string {
    if s == "" then "" else Escape(s[0]) + Quote(s[1..])
  }

  const KEY := "{\"k\":\""
  const HASH := "\"h\":\""
  const RESPONSE := "\"r\":\""

  function Field(name: string, s: string): string {
    name + Quote(s) + "\""
  }

  function Body(r: Record): string {
    var both := Field(KEY, r.key) + "," + Field(HASH, r.hash);
    if r.response == "" then both else both + "," + Field(RESPONSE, r.response)
  }

  function Render(r: Record): string {
    Body(r) + "}"
  }

  // ---- Reading a line, one character at a time ----

  /** Where the reader is: in a fixed text, in a quoted text, behind a backslash, in the digits of an
      escape, behind a field, behind the record, or lost. */
  datatype Reader =
    | Fixed(fields: seq<string>, left: string)
    | Quoted(fields: seq<string>, text: string)
    | Escaping(fields: seq<string>, text: string)
    | Digits(fields: seq<string>, text: string, digits: nat, value: nat)
    | Behind(fields: seq<string>)
    | Done(fields: seq<string>)
    | Lost

  const START := Fixed([], KEY)

  function HexValue(c: char): Option<nat> {
    if '0' <= c <= '9' then Some(c as int - '0' as int)
    else if 'a' <= c <= 'f' then Some(c as int - 'a' as int + 10)
    else if 'A' <= c <= 'F' then Some(c as int - 'A' as int + 10)
    else None
  }

  /** Half of a pair stands for no character. */
  function Decoded(n: nat): char {
    if n < 0xD800 || 0xE000 <= n < 0x10000 then n as char else '\U{FFFD}'
  }

  function Unescaped(c: char): Option<char> {
    if c in {'"', '\\', '/'} then Some(c)
    else if c == 'n' then Some('\n')
    else if c == 'r' then Some('\r')
    else if c == 't' then Some('\t')
    else if c == 'b' then Some('\U{8}')
    else if c == 'f' then Some('\U{c}')
    else None
  }

  function Read(at: Reader, c: char): Reader {
    match at
    case Fixed(fields, left) =>
      if left == "" || left[0] != c then Lost else if |left| == 1 then Quoted(fields, "") else Fixed(fields, left[1..])
    case Quoted(fields, text) =>
      if c == '"' then Behind(fields + [text])
      else if c == '\\' then Escaping(fields, text)
      else if c < ' ' then Lost
      else Quoted(fields, text + [c])
    case Escaping(fields, text) =>
      if c == 'u' then Digits(fields, text, 0, 0)
      else (match Unescaped(c) case None => Lost case Some(d) => Quoted(fields, text + [d]))
    case Digits(fields, text, digits, value) =>
      (match HexValue(c)
       case None => Lost
       case Some(d) =>
         if digits < 3 then Digits(fields, text, digits + 1, 16 * value + d)
         else Quoted(fields, text + [Decoded(16 * value + d)]))
    case Behind(fields) =>
      if c == ',' && |fields| == 1 then Fixed(fields, HASH)
      else if c == ',' && |fields| == 2 then Fixed(fields, RESPONSE)
      else if c == '}' && |fields| >= 2 then Done(fields)
      else Lost
    case Done(_) => Lost
    case Lost => Lost
  }

  function Run(at: Reader, s: string): Reader
    decreases |s|
  {
    if s == "" then at else Run(Read(at, s[0]), s[1..])
  }

  /** The record of a line, unless the line is malformed or has no key. */
  function Parse(line: string): Option<Record> {
    match Run(START, line)
    case Done(fields) =>
      if |fields| < 2 || fields[0] == "" then None
      else Some(Record(fields[0], fields[1], if |fields| > 2 then fields[2] else ""))
    case _ => None
  }

  // ---- The file ----

  /** A file as its ended lines, and what stands behind the last of them. */
  datatype Split = Split(lines: seq<string>, rest: string)

  function SplitLines(text: string): Split {
    if text == "" then Split([], "")
    else
      var before, c := SplitLines(text[..|text| - 1]), text[|text| - 1];
      if c == '\n' then Split(before.lines + [before.rest], "") else before.(rest := before.rest + [c])
  }

  /** What is scanned: an unended last line as well. */
  function Lines(text: string): seq<string> {
    var s := SplitLines(text);
    if s.rest == "" then s.lines else s.lines + [s.rest]
  }

  predicate IsWhole(text: string) {
    SplitLines(text).rest == ""
  }

  /** The record of a line; a line without one is skipped. */
  function Kept(line: string): seq<Record> {
    match Parse(line)
    case None => []
    case Some(r) => [r]
  }

  function Parsed(lines: seq<string>): seq<Record> {
    if lines == [] then []
    else Parsed(lines[..|lines| - 1]) + Kept(lines[|lines| - 1])
  }

  function Records(text: string): seq<Record> {
    Parsed(Lines(text))
  }

  function Line(r: Record): string {
    Render(r) + "\n"
  }

  ghost predicate Named(rs: seq<Record>) {
    forall r | r in rs :: r.key != ""
  }

  // ---- Reading inverts rendering ----

  lemma {:induction false} RunOn(at: Reader, s: string, t: string)
    ensures Run(at, s + t) == Run(Run(at, s), t)
    decreases |s|
  {
    if s == "" {
      assert s + t == t;
    } else {
      assert (s + t)[0] == s[0] && (s + t)[1..] == s[1..] + t;
      RunOn(Read(at, s[0]), s[1..], t);
    }
  }

  lemma RunOne(at: Reader, c: char)
    ensures Run(at, [c]) == Read(at, c)
  {
    assert Run(Read(at, c), [c][1..]) == Read(at, c);
  }

  lemma {:induction false} ReadsFixed(fields: seq<string>, left: string)
    requires left != ""
    ensures Run(Fixed(fields, left), left) == Quoted(fields, "")
  {
    if |left| == 1 {
      RunOne(Fixed(fields, left), left[0]);
      assert left == [left[0]];
    } else {
      ReadsFixed(fields, left[1..]);
    }
  }

  lemma ReadsDigit(n: nat)
    requires n < 16
    ensures HexValue(HexDigit(n)) == Some(n) && HexDigit(n) >= ' '
  {}

  lemma HexIs(n: nat)
    requires n < 0x10000
    ensures n / 4096 < 16 && n == 16 * (16 * (16 * (n / 4096) + n / 256 % 16) + n / 16 % 16) + n % 16
  {
    assert n / 256 == n / 16 / 16 && n / 4096 == n / 256 / 16;
  }

  lemma RunFour(at: Reader, a: char, b: char, c: char, d: char)
    ensures Run(at, [a, b, c, d]) == Read(Read(Read(Read(at, a), b), c), d)
  {
    assert [a, b, c, d] == [a] + ([b] + ([c] + [d]));
    RunOn(at, [a], [b] + ([c] + [d]));
    RunOne(at, a);
    RunOn(Read(at, a), [b], [c] + [d]);
    RunOne(Read(at, a), b);
    RunOn(Read(Read(at, a), b), [c], [d]);
    RunOne(Read(Read(at, a), b), c);
    RunOne(Read(Read(Read(at, a), b), c), d);
  }

  lemma ReadsHex(fields: seq<string>, text: string, n: nat)
    requires n < 0x10000
    ensures Run(Digits(fields, text, 0, 0), HexOf(n)) == Quoted(fields, text + [Decoded(n)])
  {
    HexIs(n);
    ReadsDigit(n / 4096);
    ReadsDigit(n / 256 % 16);
    ReadsDigit(n / 16 % 16);
    ReadsDigit(n % 16);
    RunFour(Digits(fields, text, 0, 0), HexDigit(n / 4096), HexDigit(n / 256 % 16), HexDigit(n / 16 % 16),
      HexDigit(n % 16));
  }

  lemma ReadsEscape(fields: seq<string>, text: string, c: char)
    ensures Run(Quoted(fields, text), Escape(c)) == Quoted(fields, text + [c])
  {
    var e := Escape(c);
    if IsPlain(c) {
      RunOne(Quoted(fields, text), c);
    } else if |e| == 2 {
      assert e[1..] == [e[1]];
      RunOne(Escaping(fields, text), e[1]);
    } else {
      assert e[1..] == "u" + HexOf(c as int) && e[1..][1..] == HexOf(c as int);
      ReadsHex(fields, text, c as int);
    }
  }

  lemma ReadsOneEscape(fields: seq<string>, text: string, c: char, rest: string)
    ensures Run(Quoted(fields, text), Escape(c) + rest) == Run(Quoted(fields, text + [c]), rest)
  {
    ReadsEscape(fields, text, c);
    RunOn(Quoted(fields, text), Escape(c), rest);
  }

  lemma {:induction false} ReadsQuote(fields: seq<string>, text: string, s: string)
    ensures Run(Quoted(fields, text), Quote(s)) == Quoted(fields, text + s)
    decreases |s|
  {
    if s == "" {
      assert text + s == text;
    } else {
      ReadsOneEscape(fields, text, s[0], Quote(s[1..]));
      ReadsQuote(fields, text + [s[0]], s[1..]);
      HeadMoves(text, s);
    }
  }

  lemma HeadMoves(text: string, s: string)
    requires s != ""
    ensures text + [s[0]] + s[1..] == text + s
  {}

  lemma ReadsField(fields: seq<string>, name: string, s: string)
    requires name != ""
    ensures Run(Fixed(fields, name), Field(name, s)) == Behind(fields + [s])
  {
    RunOn(Fixed(fields, name), name + Quote(s), "\"");
    RunOn(Fixed(fields, name), name, Quote(s));
    ReadsFixed(fields, name);
    ReadsQuote(fields, "", s);
    assert "" + s == s;
    RunOne(Quoted(fields, s), '"');
  }

  /** One more field behind others. */
  lemma ReadsNext(at: Reader, before: string, fields: seq<string>, name: string, s: string)
    requires Run(at, before) == Behind(fields) && 1 <= |fields| <= 2
    requires name == if |fields| == 1 then HASH else RESPONSE
    ensures Run(at, before + "," + Field(name, s)) == Behind(fields + [s])
  {
    RunOn(at, before + ",", Field(name, s));
    RunOn(at, before, ",");
    RunOne(Behind(fields), ',');
    ReadsField(fields, name, s);
  }

  function FieldsOf(r: Record): seq<string> {
    [r.key, r.hash] + (if r.response == "" then [] else [r.response])
  }

  lemma ReadsBoth(key: string, hash: string)
    ensures Run(START, Field(KEY, key) + "," + Field(HASH, hash)) == Behind([key, hash])
  {
    ReadsField([], KEY, key);
    assert [] + [key] == [key];
    ReadsNext(START, Field(KEY, key), [key], HASH, hash);
    assert [key] + [hash] == [key, hash];
  }

  lemma ReadsBody(r: Record)
    ensures Run(START, Body(r)) == Behind(FieldsOf(r))
  {
    ReadsBoth(r.key, r.hash);
    if r.response != "" {
      ReadsNext(START, Field(KEY, r.key) + "," + Field(HASH, r.hash), [r.key, r.hash], RESPONSE, r.response);
    }
  }

  lemma ReadsRecord(r: Record)
    ensures Run(START, Render(r)) == Done(FieldsOf(r))
  {
    ReadsBody(r);
    RunOn(START, Body(r), "}");
    RunOne(Behind(FieldsOf(r)), '}');
  }

  /** Main result: a line that holds one record reads back as that record. */
  lemma ParseRender(r: Record)
    requires r.key != ""
    ensures Parse(Render(r)) == Some(r)
  {
    ReadsRecord(r);
  }

  // ---- Pieces of lines are refused ----

  lemma {:induction false} StaysLost(s: string)
    ensures Run(Lost, s) == Lost
  {
    if s != "" { StaysLost(s[1..]); }
  }

  /** Not at the start: no opening brace is expected. */
  ghost predicate IsUnderway(at: Reader) {
    at.Fixed? ==> '{' !in at.left
  }

  lemma {:induction false} StaysUnderway(at: Reader, s: string)
    requires IsUnderway(at)
    ensures IsUnderway(Run(at, s))
    decreases |s|
  {
    if s != "" { StaysUnderway(Read(at, s[0]), s[1..]); }
  }

  lemma LeavesStart(s: string)
    requires s != ""
    ensures IsUnderway(Run(START, s))
  {
    StaysUnderway(Read(START, s[0]), s[1..]);
  }

  /** A record cannot begin where another has. */
  lemma LosesOpening(at: Reader)
    requires IsUnderway(at)
    ensures Read(at, '{').Quoted? || Read(at, '{').Lost?
    ensures Read(Read(at, '{'), '"').Behind? || Read(Read(at, '{'), '"').Lost?
    ensures Read(Read(Read(at, '{'), '"'), 'k').Lost?
  {}

  lemma BeginsAlike(r: Record)
    ensures |Render(r)| > 3 && Render(r)[..3] == KEY[..3]
  {
    assert Render(r) == KEY + Render(r)[|KEY|..];
  }

  /** What begins like a record behind something else is no record. */
  lemma JoinedIsLost(t: string, r: Record, n: nat)
    requires t != "" && 0 < n <= |Render(r)|
    ensures Parse(t + Render(r)[..n]).None?
  {
    var at, p := Run(START, t), Render(r)[..n];
    LeavesStart(t);
    RunOn(START, t, p);
    LosesOpening(at);
    BeginsAlike(r);
    assert forall i | 0 <= i < n && i < 3 :: p[i] == Render(r)[..3][i];
    if n == 1 {
      RunOne(at, p[0]);
      assert p == [p[0]];
    } else if n == 2 {
      RunOne(Read(at, p[0]), p[1]);
      assert p[1..] == [p[1]];
    } else {
      assert Run(at, p) == Run(Read(at, '{'), p[1..]) == Run(Read(Read(at, '{'), '"'), p[1..][1..]);
      StaysLost(p[1..][1..][1..]);
    }
  }

  /** A record without its end is no record. */
  lemma CutIsLost(r: Record, n: nat)
    requires n < |Render(r)|
    ensures Parse(Render(r)[..n]).None?
  {
    var p, rest := Render(r)[..n], Render(r)[n..];
    assert Render(r) == p + rest;
    RunOn(START, p, rest);
    ReadsRecord(r);
    if Run(START, p).Done? { StaysLost(rest[1..]); }
  }

  // ---- No line holds a newline ----

  lemma EscapeIsOneLine(c: char)
    ensures '\n' !in Escape(c)
  {
    if |Escape(c)| == 6 {
      HexIs(c as int);
      ReadsDigit(c as int / 4096);
      ReadsDigit(c as int / 256 % 16);
      ReadsDigit(c as int / 16 % 16);
      ReadsDigit(c as int % 16);
    }
  }

  lemma {:induction false} QuoteIsOneLine(s: string)
    ensures '\n' !in Quote(s)
  {
    if s != "" {
      EscapeIsOneLine(s[0]);
      QuoteIsOneLine(s[1..]);
    }
  }

  lemma FieldIsOneLine(name: string, s: string)
    requires '\n' !in name
    ensures '\n' !in Field(name, s)
  {
    QuoteIsOneLine(s);
  }

  lemma RenderIsOneLine(r: Record)
    ensures '\n' !in Render(r)
  {
    FieldIsOneLine(KEY, r.key);
    FieldIsOneLine(HASH, r.hash);
    FieldIsOneLine(RESPONSE, r.response);
  }

  // ---- Appending to the file ----

  lemma SplitOne(text: string, c: char)
    ensures SplitLines(text + [c]) ==
      var before := SplitLines(text);
      if c == '\n' then Split(before.lines + [before.rest], "") else before.(rest := before.rest + [c])
  {
    assert (text + [c])[..|text|] == text;
  }

  lemma {:induction false} SplitOn(text: string, s: string)
    requires '\n' !in s
    ensures SplitLines(text + s) == Split(SplitLines(text).lines, SplitLines(text).rest + s)
  {
    var rest := SplitLines(text).rest;
    if s == "" {
      assert text + s == text && rest + s == rest;
    } else {
      var init, c := s[..|s| - 1], s[|s| - 1];
      assert s == init + [c] && text + s == (text + init) + [c] && rest + s == (rest + init) + [c];
      SplitOn(text, init);
      SplitOne(text + init, c);
    }
  }

  lemma ParsedOneMore(lines: seq<string>, line: string)
    ensures Parsed(lines + [line]) == Parsed(lines) + Kept(line)
  {
    assert (lines + [line])[..|lines|] == lines;
  }

  /** The records on ended lines. */
  function Ended(text: string): seq<Record> {
    Parsed(SplitLines(text).lines)
  }

  lemma RecordsAre(text: string)
    ensures Records(text) == Ended(text) + Kept(SplitLines(text).rest)
  {
    var s := SplitLines(text);
    if s.rest != "" { ParsedOneMore(s.lines, s.rest); } else { assert Kept("") == []; }
  }

  /** What stands on a line once a record was written behind what was there, up to `n` characters. */
  lemma KeptAfter(rest: string, r: Record, n: nat)
    requires r.key != "" && n <= |Render(r)|
    ensures Kept(rest + Render(r)[..n]) ==
      if n == 0 then Kept(rest) else if rest == "" && n == |Render(r)| then [r] else []
  {
    var p := Render(r)[..n];
    if n == 0 {
      assert rest + p == rest;
    } else if rest != "" {
      JoinedIsLost(rest, r, n);
    } else {
      assert rest + p == p;
      if n < |Render(r)| { CutIsLost(r, n); } else { assert p == Render(r); ParseRender(r); }
    }
  }

  lemma UnendedAfter(text: string, r: Record, n: nat)
    requires n <= |Render(r)|
    ensures SplitLines(text + Render(r)[..n]) == Split(SplitLines(text).lines, SplitLines(text).rest + Render(r)[..n])
    ensures Records(text + Render(r)[..n]) == Ended(text) + Kept(SplitLines(text).rest + Render(r)[..n])
  {
    RenderIsOneLine(r);
    SplitOn(text, Render(r)[..n]);
    RecordsAre(text + Render(r)[..n]);
  }

  lemma EndedAfter(text: string, r: Record)
    ensures SplitLines(text + Line(r)) == Split(SplitLines(text).lines + [SplitLines(text).rest + Render(r)], "")
    ensures Records(text + Line(r)) == Ended(text) + Kept(SplitLines(text).rest + Render(r))
  {
    RenderIsOneLine(r);
    SplitOn(text, Render(r));
    assert text + Line(r) == (text + Render(r)) + ['\n'];
    SplitOne(text + Render(r), '\n');
    ParsedOneMore(SplitLines(text).lines, SplitLines(text).rest + Render(r));
  }

  /** What a line written up to `n` characters adds, and what it takes with it. */
  function After(text: string, r: Record, n: nat): seq<Record> {
    if n == 0 then Records(text)
    else if !IsWhole(text) then Ended(text)
    else if n < |Render(r)| then Records(text)
    else Records(text) + [r]
  }

  /** Main result: what a file holds once a line was written, whole or cut after `n` characters.
      Behind ended lines the record is there exactly when at most the newline is missing. Behind an
      unended line nothing of it is there, and a record on the unended line is gone with it. */
  lemma RecordsAfter(text: string, r: Record, n: nat)
    requires r.key != "" && n <= |Line(r)|
    ensures Records(text + Line(r)[..n]) == After(text, r, n)
    ensures IsWhole(text + Line(r)[..n]) <==> n == |Line(r)| || (n == 0 && IsWhole(text))
  {
    if n == |Line(r)| {
      AfterLine(text, r);
      assert Line(r)[..n] == Line(r);
    } else {
      AfterPiece(text, r, n);
      assert Line(r)[..n] == Render(r)[..n];
    }
  }

  lemma AfterLine(text: string, r: Record)
    requires r.key != ""
    ensures Records(text + Line(r)) == After(text, r, |Line(r)|) && IsWhole(text + Line(r))
  {
    EndedAfter(text, r);
    RecordsAre(text);
    KeptAfter(SplitLines(text).rest, r, |Render(r)|);
    assert Render(r)[..|Render(r)|] == Render(r);
  }

  lemma AfterPiece(text: string, r: Record, n: nat)
    requires r.key != "" && n <= |Render(r)|
    ensures Records(text + Render(r)[..n]) == After(text, r, n)
    ensures IsWhole(text + Render(r)[..n]) <==> n == 0 && IsWhole(text)
  {
    UnendedAfter(text, r, n);
    RecordsAre(text);
    KeptAfter(SplitLines(text).rest, r, n);
  }

  lemma AppendsWhole(text: string, r: Record)
    requires IsWhole(text) && r.key != ""
    ensures IsWhole(text + Line(r)) && Records(text + Line(r)) == Records(text) + [r]
  {
    AfterLine(text, r);
  }

  lemma OneMore<T>(s: seq<T>, i: nat)
    requires i < |s|
    ensures s[..i + 1] == s[..i] + [s[i]] && s[i] in s
  {}

  /** A file of whole lines that reads back as some records. */
  ghost predicate Holds(text: string, rs: seq<Record>) {
    IsWhole(text) && Records(text) == rs
  }

  lemma HoldsOneMore(text: string, rs: seq<Record>, i: nat)
    requires i < |rs| && Holds(text, rs[..i]) && rs[i].key != ""
    ensures Holds(text + Line(rs[i]), rs[..i + 1])
  {
    AppendsWhole(text, rs[i]);
    OneMore(rs, i);
  }

  lemma EmptyHolds()
    ensures Holds("", [])
  {}

  /** The file the log is rewritten to reads back as the records it was rendered from. */
  method RenderAll(rs: seq<Record>) returns (text: string)
    requires Named(rs)
    ensures IsWhole(text) && Records(text) == rs
  {
    text := "";
    EmptyHolds();
    assert rs[..0] == [];
    for i := 0 to |rs|
      invariant Holds(text, rs[..i])
    {
      HoldsOneMore(text, rs, i);
      text := text + Line(rs[i]);
    }
    assert rs[..|rs|] == rs;
  }

  lemma {:induction false} RecordsAreNamed(lines: seq<string>)
    ensures Named(Parsed(lines))
  {
    if lines != [] { RecordsAreNamed(lines[..|lines| - 1]); }
  }

  /** Main result: a record appended whole is read back, and everything before it, exactly when the
      file ended with a line. */
  lemma AppendedIsReadBack(text: string, r: Record)
    requires r.key != ""
    ensures Records(text + Line(r)) == Records(text) + [r] <==> IsWhole(text)
  {
    AfterLine(text, r);
    RecordsAre(text);
  }

  /** Main result: a line cut just before its newline is read back after a crash, and the next append
      loses it again together with its own record. */
  lemma NewlineLosesBoth(text: string, r: Record, next: Record)
    requires IsWhole(text) && r.key != "" && next.key != ""
    ensures Records(text + Render(r)) == Records(text) + [r]
    ensures Records(text + Render(r) + Line(next)) == Records(text)
  {
    var n := |Render(r)|;
    assert Render(r)[..n] == Render(r);
    BeginsAlike(r);
    AfterPiece(text, r, n);
    UnendedAfter(text, r, n);
    AfterLine(text + Render(r), next);
    RecordsAre(text);
    assert Kept("") == [];
  }

  /** Main result: a new message is known after a restart with all that was known before it exactly when
      the line before its own was ended. A store of one entry may not notice. */
  lemma TornLineLosesNext(capacity: nat, text: string, key: string, hash: string)
    requires capacity > 0 && key != ""
    requires Judge(Replay(capacity, Records(text)), key, hash).NewMessage?
    ensures capacity == 1 || (IsWhole(text) <==>
      Replay(capacity, Records(text + Line(Record(key, hash, "")))) ==
      Checked(capacity, Replay(capacity, Records(text)), key, hash))
  {
    var r := Record(key, hash, "");
    AfterLine(text, r);
    CheckAgrees(capacity, Records(text), key, hash);
    RecordsAre(text);
    if !IsWhole(text) && capacity > 1 { ForgetsNext(capacity, Ended(text), Kept(SplitLines(text).rest), key, hash); }
  }

  /** A store of one entry: the older message is new again, and losing the newer one as well leaves
      the older one known. */
  lemma OneEntryMayNotNotice(key: string, hash: string, newer: Record)
    requires key != "" && newer.key != "" && newer.key != key
    ensures var r := Record(key, hash, ""); var text := Line(r) + Render(newer);
      Judge(Replay(1, Records(text)), key, hash).NewMessage? &&
      Replay(1, Records(text + Line(r))) == Checked(1, Replay(1, Records(text)), key, hash)
  {
    var r := Record(key, hash, "");
    OneLine(r);
    NewlineLosesBoth(Line(r), newer, r);
    OneEntry(r, newer);
  }

  lemma OneLine(r: Record)
    requires r.key != ""
    ensures IsWhole(Line(r)) && Records(Line(r)) == [r]
  {
    AppendsWhole("", r);
    assert "" + Line(r) == Line(r) && [] + [r] == [r];
  }

  lemma OneEntry(r: Record, newer: Record)
    requires newer.key != r.key && r.response == ""
    ensures Judge(Replay(1, [r] + [newer]), r.key, r.hash).NewMessage?
    ensures Replay(1, [r]) == Checked(1, Replay(1, [r] + [newer]), r.key, r.hash)
  {
    ReplayOneMore(1, [], r);
    ReplayOneMore(1, [r], newer);
    assert [] + [r] == [r];
  }

  /** A message that is new behind one more record is not what came last before that record. */
  lemma ForgetsNext(capacity: nat, log: seq<Record>, more: seq<Record>, key: string, hash: string)
    requires capacity > 1 && |more| <= 1 && Judge(Replay(capacity, log + more), key, hash).NewMessage?
    ensures Replay(capacity, log) != Checked(capacity, Replay(capacity, log + more), key, hash)
  {
    var s, t := Replay(capacity, log), Replay(capacity, log + more);
    if s != [] {
      if more == [] { LastIsThere(capacity, log, more); } else { LastIsThereStill(capacity, log, more); }
    }
    LastIsNew(capacity, s, t, key, hash);
  }

  lemma LastIsThere(capacity: nat, log: seq<Record>, more: seq<Record>)
    requires capacity > 0 && more == [] && Replay(capacity, log) != []
    ensures var s := Replay(capacity, log); Position(Replay(capacity, log + more), s[|s| - 1].key).Some?
  {
    assert log + more == log;
    ReplayHolds(capacity, log);
    PositionIs(Replay(capacity, log), |Replay(capacity, log)| - 1);
  }

  lemma LastIsThereStill(capacity: nat, log: seq<Record>, more: seq<Record>)
    requires capacity > 1 && |more| == 1 && Replay(capacity, log) != []
    ensures var s := Replay(capacity, log); Position(Replay(capacity, log + more), s[|s| - 1].key).Some?
  {
    assert more == [more[0]];
    ReplayHolds(capacity, log);
    ReplayOneMore(capacity, log, more[0]);
    LastIsKept(capacity, Replay(capacity, log), more[0]);
  }

  lemma LastIsNew(capacity: nat, s: seq<Entry>, t: seq<Entry>, key: string, hash: string)
    requires capacity > 0 && Judge(t, key, hash).NewMessage? && (s != [] ==> Position(t, s[|s| - 1].key).Some?)
    ensures s != Checked(capacity, t, key, hash)
  {
    var next := Checked(capacity, t, key, hash);
    assert next[|next| - 1].key == key;
  }

  lemma LastIsKept(capacity: nat, s: seq<Entry>, r: Record)
    requires capacity > 1 && s != [] && Bounded(capacity, s)
    ensures Position(Restored(capacity, s, r), s[|s| - 1].key).Some?
  {
    var t := Restored(capacity, s, r);
    match Position(s, r.key)
    case None => assert t[|t| - 2] == s[|s| - 1];
    case Some(i) => assert t[|t| - 1].key == s[|s| - 1].key;
  }
}
