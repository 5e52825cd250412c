/** Text on the wire: two-byte units, the document declaration, and where a message ends. */
module Wire {
  import opened Options
  import opened Text

  type Byte = x: int | 0 <= x < 256

  const BOM: char := 0xFEFF as char
  const DECLARATION := "<?xml"
  const ATTRIBUTES := " version=" + "\"1.0\"" + " encoding=" + "\"UTF-16\""
  const DECLARED := Markup(ATTRIBUTES)
  const CLOSE_TAG := "</mos>"

  // ---- Units ----

  function High(c: char): Byte {
    c as int / 256 % 256
  }

  function Low(c: char): Byte {
    c as int % 256
  }

  /** One unit per character, and never the swapped byte-order mark. */
  predicate IsUnit(u: int) {
    0 <= u < 0xD800 || (0xE000 <= u <= 0xFFFF && u != 0xFFFE)
  }

  predicate InPlane(t: string) {
    forall i | 0 <= i < |t| :: t[i] as int <= 0xFFFF
  }

  predicate IsWireText(t: string) {
    forall i | 0 <= i < |t| :: IsUnit(t[i] as int)
  }

  function Bytes(t: string): (b: seq<Byte>)
    ensures |b| == 2 * |t|
  {
    seq(2 * |t|, i requires 0 <= i < 2 * |t| => if i % 2 == 0 then High(t[i / 2]) else Low(t[i / 2]))
  }

  function Unit(b: seq<Byte>, i: nat): int
    requires 2 * i + 1 < |b|
  {
    b[2 * i] as int * 256 + b[2 * i + 1]
  }

  predicate HasUnits(b: seq<Byte>) {
    forall i | 0 <= i < |b| / 2 :: IsUnit(Unit(b, i))
  }

  /** The characters of whole units; a last odd byte waits for its other half. */
  function TextOf(b: seq<Byte>): (t: string)
    requires HasUnits(b)
    ensures |t| == |b| / 2
  {
    seq(|b| / 2, i requires 0 <= i < |b| / 2 => Unit(b, i) as char)
  }

  lemma UnitOf(t: string, b: seq<Byte>, i: nat)
    requires InPlane(t) && b <= Bytes(t) && i < |b| / 2
    ensures Unit(b, i) == t[i] as int
  {
    assert b[2 * i] == Bytes(t)[2 * i] && b[2 * i + 1] == Bytes(t)[2 * i + 1];
  }

  /** Received so far is text so far. */
  lemma PrefixText(t: string, b: seq<Byte>)
    requires IsWireText(t) && b <= Bytes(t)
    ensures HasUnits(b) && TextOf(b) == t[..|b| / 2]
  {
    forall i | 0 <= i < |b| / 2 ensures Unit(b, i) == t[i] as int { UnitOf(t, b, i); }
  }

  lemma BytesJoin(s: string, t: string)
    ensures Bytes(s + t) == Bytes(s) + Bytes(t)
  {}

  // ---- Searching ----

  predicate OccursAt(s: string, p: string, i: int) {
    0 <= i && i + |p| <= |s| && forall k | 0 <= k < |p| :: s[i + k] == p[k]
  }

  /** Where `p` first occurs. */
  function Index(s: string, p: string, from: nat): (r: Option<nat>)
    requires from <= |s|
    ensures r.Some? ==>
      from <= r.value && OccursAt(s, p, r.value) && forall j | from <= j < r.value :: !OccursAt(s, p, j)
    ensures r.None? ==> forall j | from <= j :: !OccursAt(s, p, j)
    decreases |s| - from
  {
    if OccursAt(s, p, from) then Some(from)
    else if from == |s| then None
    else Index(s, p, from + 1)
  }

  /** What occurs first in a prefix occurs first in the whole. */
  lemma FirstOccursFirst(s: string, t: string, p: string)
    requires s <= t && Index(s, p, 0).Some?
    ensures Index(t, p, 0) == Index(s, p, 0)
  {
    var e := Index(s, p, 0).value;
    assert forall i | 0 <= i < |s| :: s[i] == t[i];
    forall j | 0 <= j <= e ensures OccursAt(t, p, j) <==> OccursAt(s, p, j) {}
  }

  // ---- The declaration and the root ----

  function TrimLeft(s: string): string {
    if s != "" && IsSpace(s[0]) then TrimLeft(s[1..]) else s
  }

  function TrimMark(s: string): string {
    if s != "" && s[0] == BOM then s[1..] else s
  }

  function Strip(s: string): string {
    var v := TrimLeft(s);
    if DECLARATION <= v && Index(v, "?>", 0).Some? then v[Index(v, "?>", 0).value + 2..] else v
  }

  datatype Root = Incomplete | Named(name: string) | Malformed

  predicate EndsName(c: char) {
    c in " \t\r\n/>"
  }

  function NameEnd(v: string, from: nat): (r: Option<nat>)
    requires from <= |v|
    ensures r.Some? ==>
      from <= r.value < |v| && EndsName(v[r.value]) && forall j | from <= j < r.value :: !EndsName(v[j])
    ensures r.None? ==> forall j | from <= j < |v| :: !EndsName(v[j])
    decreases |v| - from
  {
    if from == |v| then None
    else if EndsName(v[from]) then Some(from)
    else NameEnd(v, from + 1)
  }

  function Tag(v: string): Root {
    if v == "" then Incomplete
    else if v[0] != '<' then Malformed
    else
      match NameEnd(v, 1)
      case None => Incomplete
      case Some(e) => Named(v[1..e])
  }

  /** The root element of a text of which perhaps only the beginning is known. */
  function RootName(t: string): Root {
    var v := TrimLeft(TrimMark(t));
    if DECLARATION <= v then
      match Index(v, "?>", 0)
      case None => Incomplete
      case Some(e) => Tag(TrimLeft(v[e + 2..]))
    else Tag(v)
  }

  lemma {:induction false} TrimLeftMonotone(s: string, t: string)
    requires s <= t
    ensures TrimLeft(s) <= TrimLeft(t)
  {
    if s != "" && IsSpace(s[0]) { TrimLeftMonotone(s[1..], t[1..]); }
  }

  lemma TagMonotone(v: string, w: string)
    requires v <= w
    ensures Tag(v) == Incomplete || Tag(v) == Tag(w)
  {
    if v != "" && v[0] == '<' && NameEnd(v, 1).Some? {
      var e := NameEnd(v, 1).value;
      assert NameEnd(w, 1) == Some(e) by {
        assert EndsName(w[e]) && forall j | 1 <= j < e :: w[j] == v[j];
      }
      assert w[1..e] == v[1..e];
    }
  }

  lemma ShortDeclaration(v: string)
    requires v < DECLARATION
    ensures Tag(v) == Incomplete
  {
    assert forall j | 0 <= j < |v| :: v[j] == DECLARATION[j];
  }

  lemma TagBehindMonotone(v: string, w: string)
    requires v <= w && Index(v, "?>", 0).Some?
    ensures Index(w, "?>", 0) == Index(v, "?>", 0)
    ensures var e := Index(v, "?>", 0).value + 2;
      Tag(TrimLeft(v[e..])) == Incomplete || Tag(TrimLeft(v[e..])) == Tag(TrimLeft(w[e..]))
  {
    FirstOccursFirst(v, w, "?>");
    var e := Index(v, "?>", 0).value + 2;
    TrimLeftMonotone(v[e..], w[e..]);
    TagMonotone(TrimLeft(v[e..]), TrimLeft(w[e..]));
  }

  /** Main result: the root read from a beginning is the root of the whole. */
  lemma RootMonotone(t: string, u: string)
    requires t <= u
    ensures RootName(t) == Incomplete || RootName(t) == RootName(u)
  {
    assert TrimMark(t) <= TrimMark(u);
    TrimLeftMonotone(TrimMark(t), TrimMark(u));
    var v, w := TrimLeft(TrimMark(t)), TrimLeft(TrimMark(u));
    if DECLARATION <= v {
      if Index(v, "?>", 0).Some? { TagBehindMonotone(v, w); }
    } else if DECLARATION <= w {
      ShortDeclaration(v);
    } else {
      TagMonotone(v, w);
    }
  }

  // ---- Encoding and decoding ----

  function Encode(x: string): Option<seq<Byte>> {
    var v := DECLARED + "\n" + Strip(x);
    if InPlane(v) then Some(Bytes(v)) else None
  }

  function Decode(b: seq<Byte>): Option<string> {
    if |b| % 2 != 0 || !HasUnits(b) then None else Some(Strip(TrimMark(TextOf(b))))
  }

  lemma BytesDecode(t: string)
    requires IsWireText(t)
    ensures Decode(Bytes(t)) == Some(Strip(TrimMark(t)))
  {
    PrefixText(t, Bytes(t));
    assert t[..|t|] == t;
  }

  lemma OccursIsBoth(d: string, j: nat)
    requires j + 1 < |d|
    ensures OccursAt(d, "?>", j) <==> d[j] == '?' && d[j + 1] == '>'
  {
    var p := "?>";
    assert |p| == 2 && p[0] == '?' && p[1] == '>' && d[j + 0] == d[j];
    assert OccursAt(d, p, j) <==> d[j + 0] == p[0] && d[j + 1] == p[1];
  }

  lemma IndexIs(s: string, p: string, e: nat)
    requires OccursAt(s, p, e) && forall j | 0 <= j < e :: !OccursAt(s, p, j)
    ensures Index(s, p, 0) == Some(e)
  {}

  /** The declaration with the attributes `a`. */
  function Markup(a: string): (d: string)
    ensures |d| == 7 + |a| && d[0] == '<' && d[1] == '?' && d[2] == 'x' && d[5 + |a|] == '?' && d[6 + |a|] == '>'
    ensures forall j | 3 <= j < 5 + |a| :: d[j] in DECLARATION[3..] || d[j] in a
  {
    DECLARATION + a + "?>"
  }

  lemma MarkupEnds(a: string)
    requires '?' !in a
    ensures Index(Markup(a), "?>", 0) == Some(5 + |a|)
  {
    var d, end := Markup(a), 5 + |a|;
    assert '?' !in DECLARATION[3..];
    forall j | 0 <= j < end ensures !OccursAt(d, "?>", j) { OccursIsBoth(d, j); }
    OccursIsBoth(d, end);
    IndexIs(d, "?>", end);
  }

  lemma StripsDeclaration(a: string, rest: string)
    requires '?' !in a
    ensures Strip(TrimMark(Markup(a) + rest)) == rest
  {
    var d := Markup(a);
    var v := d + rest;
    MarkupEnds(a);
    FirstOccursFirst(d, v, "?>");
    assert v[0] == '<' && DECLARATION <= v && v[|d|..] == rest;
  }

  lemma AttributesAreClean()
    ensures '?' !in ATTRIBUTES
  {}

  lemma DeclaredStrips(s: string)
    ensures Strip(TrimMark(DECLARED + "\n" + s)) == "\n" + s
  {
    AttributesAreClean();
    StripsDeclaration(ATTRIBUTES, "\n" + s);
    assert DECLARED + "\n" + s == DECLARED + ("\n" + s);
  }

  lemma PlaneOfSuffix(p: string, s: string)
    requires IsWireText(p)
    ensures InPlane(p + s) <==> InPlane(s)
    ensures IsWireText(p + s) <==> IsWireText(s)
  {
    assert forall i | 0 <= i < |s| :: s[i] == (p + s)[|p| + i];
  }

  lemma RefusedText(v: string)
    requires InPlane(v) && !IsWireText(v)
    ensures Decode(Bytes(v)) == None
  {
    var i :| 0 <= i < |v| && !IsUnit(v[i] as int);
    UnitOf(v, Bytes(v), i);
  }

  /** Main result: encoding is refused exactly for characters beyond two bytes, and what it encodes
      decodes to the same text without its declaration, exactly when that text has no swapped
      byte-order mark: encoding lets that character through and decoding refuses it. */
  lemma RoundTrip(x: string)
    ensures Encode(x).Some? <==> InPlane(Strip(x))
    ensures Encode(x).Some? ==>
      Decode(Encode(x).value) == if IsWireText(Strip(x)) then Some("\n" + Strip(x)) else None
  {
    var v := DECLARED + "\n" + Strip(x);
    DeclaredIsWireText();
    PlaneOfSuffix(DECLARED + "\n", Strip(x));
    if IsWireText(v) {
      BytesDecode(v);
      DeclaredStrips(Strip(x));
    } else if InPlane(v) {
      RefusedText(v);
    }
  }

  lemma JoinedIsWireText(s: string, t: string)
    requires IsWireText(s) && IsWireText(t)
    ensures IsWireText(s + t)
  {}

  lemma AttributesAreWireText()
    ensures IsWireText(ATTRIBUTES)
  {
    JoinedIsWireText(" version=", "\"1.0\"");
    JoinedIsWireText(" version=" + "\"1.0\"", " encoding=");
    JoinedIsWireText(" version=" + "\"1.0\"" + " encoding=", "\"UTF-16\"");
  }

  lemma DeclaredIsWireText()
    ensures IsWireText(DECLARED + "\n")
  {
    AttributesAreWireText();
    JoinedIsWireText(DECLARATION, ATTRIBUTES);
    JoinedIsWireText(DECLARATION + ATTRIBUTES, "?>");
    JoinedIsWireText(DECLARED, "\n");
  }

  lemma StripsNothing(x: string)
    requires |x| > 1 && !IsSpace(x[0]) && x[1] != '?'
    ensures Strip(x) == x
  {}

  lemma MarkIsRefused(x: string, i: nat)
    requires Strip(x) == x && InPlane(x) && i < |x| && x[i] == '\U{FFFE}'
    ensures Encode(x).Some? && Decode(Encode(x).value) == None
  {
    assert !IsUnit(x[i] as int);
    RoundTrip(x);
  }

  /** A document that is encoded and that its receiver refuses. */
  lemma SwappedMarkIsRefused()
    ensures Encode("<a>\U{FFFE}</a>").Some? && Decode(Encode("<a>\U{FFFE}</a>").value) == None
  {
    var x := "<a>\U{FFFE}</a>";
    StripsNothing(x);
    MarkIsRefused(x, 3);
  }
}
