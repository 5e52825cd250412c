/** The content-addressed form of a checkpoint: how a document is packed into immutable objects
    and a small root, and how the root is read back. */
module Content {
  import opened Json

  const REFERENCE := "$content"
  const RAW := "raw"

  /** The four fields whose arrays are stored row by row. */
  predicate IsRowKey(key: string) {
    key == "stories" || key == "items" || key == "runningOrders" || key == "receipts"
  }

  function Reference(id: string, opaque_: bool): Json {
    if opaque_ then Obj(map[REFERENCE := Str(id), RAW := True]) else Obj(map[REFERENCE := Str(id)])
  }

  /** The object shape that reading follows. */
  predicate IsReference(fields: map<string, Json>) {
    && REFERENCE in fields
    && (|fields| == 1 || (|fields| == 2 && RAW in fields && fields[RAW] == True))
  }

  // ---- Packing ----

  /** The packed form of one document part. `large` is the size threshold. */
  function Pack(digest: Json -> string, large: Json -> bool, j: Json): Outcome
    decreases j, 2
  {
    match j
    case Obj(fields) =>
      if REFERENCE in fields then
        Ok(Reference(digest(j), true))
      else if exists k | k in fields :: PackField(digest, large, k, fields[k]).Err? then
        Err
      else
        Ok(Shrink(digest, large, PackFields(digest, large, j)))
    case _ => Ok(Shrink(digest, large, j))
  }

  function PackFields(digest: Json -> string, large: Json -> bool, j: Json): Json
    requires j.Obj? && forall k | k in j.fields :: PackField(digest, large, k, j.fields[k]).Ok?
    decreases j, 1
  {
    Obj(map k | k in j.fields :: PackField(digest, large, k, j.fields[k]).value)
  }

  function PackField(digest: Json -> string, large: Json -> bool, key: string, j: Json): Outcome
    decreases j, 3
  {
    if IsRowKey(key) then
      match j
      case Null => Ok(j)
      case Arr(rows) => Ok(PackRows(digest, rows))
      case _ => Err
    else
      Pack(digest, large, j)
  }

  function PackRows(digest: Json -> string, rows: seq<Json>): Json {
    Arr(seq(|rows|, i requires 0 <= i < |rows| => Reference(digest(rows[i]), true)))
  }

  /** A large body is replaced by a reference to it. */
  function Shrink(digest: Json -> string, large: Json -> bool, body: Json): Json {
    if large(body) then Reference(digest(body), false) else body
  }

  /** The objects that packing `j` stores. */
  function Bodies(digest: Json -> string, large: Json -> bool, j: Json): set<Json>
    decreases j, 1
  {
    match j
    case Obj(fields) =>
      if REFERENCE in fields then
        {j}
      else if Pack(digest, large, j).Err? then
        {}
      else
        var body := PackFields(digest, large, j);
        FieldsBodies(digest, large, j, fields.Keys) + if large(body) then {body} else {}
    case _ => if large(j) then {j} else {}
  }

  /** The objects of the fields named by `keys`. */
  function FieldsBodies(digest: Json -> string, large: Json -> bool, j: Json, keys: set<string>): set<Json>
    requires j.Obj? && keys <= j.fields.Keys
    decreases j, 0
  {
    set k, b | k in keys && b in FieldBodies(digest, large, k, j.fields[k]) :: b
  }

  function FieldBodies(digest: Json -> string, large: Json -> bool, key: string, j: Json): set<Json>
    decreases j, 2
  {
    if IsRowKey(key) then
      if j.Arr? then set row | row in j.rows else {}
    else
      Bodies(digest, large, j)
  }

  // ---- Reading ----

  /** Expands every reference. `seen` holds the names on the path from the root. */
  function Unpack(digest: Json -> string, files: map<string, Json>, j: Json, seen: set<string>): Outcome
    decreases files.Keys - seen, j
  {
    match j
    case Obj(fields) =>
      if IsReference(fields) then
        if !fields[REFERENCE].Str? || !IsHex(fields[REFERENCE].text) then Err
        else
          var id := fields[REFERENCE].text;
          if id in seen then Err
          else if id !in files then Err
          else if digest(files[id]) != id then Err
          else if RAW in fields then Ok(files[id])
          else Unpack(digest, files, files[id], seen + {id})
      else if exists k | k in fields :: Unpack(digest, files, fields[k], seen).Err? then
        Err
      else
        Ok(Obj(map k | k in fields :: Unpack(digest, files, fields[k], seen).value))
    case Arr(rows) =>
      if exists i | 0 <= i < |rows| :: Unpack(digest, files, rows[i], seen).Err? then Err
      else Ok(Arr(seq(|rows|, i requires 0 <= i < |rows| => Unpack(digest, files, rows[i], seen).value)))
    case _ => Ok(j)
  }

  lemma FieldsExpandTo(
      digest: Json -> string, files: map<string, Json>, fields: map<string, Json>, seen: set<string>,
      expanded: map<string, Json>)
    requires !IsReference(fields) && expanded.Keys == fields.Keys
    requires forall k | k in fields :: Unpack(digest, files, fields[k], seen) == Ok(expanded[k])
    ensures Unpack(digest, files, Obj(fields), seen) == Ok(Obj(expanded))
  {
    var r := Unpack(digest, files, Obj(fields), seen);
    assert r.Ok? && r.value.fields.Keys == expanded.Keys;
    assert r.value.fields == expanded;
  }

  lemma RowsExpandTo(
      digest: Json -> string, files: map<string, Json>, rows: seq<Json>, seen: set<string>, expanded: seq<Json>)
    requires |expanded| == |rows|
    requires forall i | 0 <= i < |rows| :: Unpack(digest, files, rows[i], seen) == Ok(expanded[i])
    ensures Unpack(digest, files, Arr(rows), seen) == Ok(Arr(expanded))
  {
    assert expanded == seq(|rows|, i requires 0 <= i < |rows| => Unpack(digest, files, rows[i], seen).value);
  }

  // ---- Round trip ----

  /** Reading leaves `j` alone: no reference shape in it, at any depth. */
  predicate Inert(j: Json) {
    match j
    case Obj(fields) => !IsReference(fields) && forall k | k in fields :: Inert(fields[k])
    case Arr(rows) => forall i | 0 <= i < |rows| :: Inert(rows[i])
    case _ => true
  }

  /** The arrays that packing does not descend into hold no reference shape. Rows and objects
      with a reserved key are stored whole, so anything may stand in them. */
  predicate Packable(j: Json) {
    match j
    case Obj(fields) =>
      REFERENCE in fields || forall k | k in fields :: IsRowKey(k) || Packable(fields[k])
    case _ => Inert(j)
  }

  /** Every stored body is in the directory under its own name. */
  ghost predicate Holds(digest: Json -> string, files: map<string, Json>, bodies: set<Json>) {
    forall b | b in bodies :: digest(b) in files && files[digest(b)] == b
  }

  lemma {:induction false} InertIsLeftAlone(digest: Json -> string, files: map<string, Json>, j: Json,
      seen: set<string>)
    requires Inert(j)
    ensures Unpack(digest, files, j, seen) == Ok(j)
  {
    match j
    case Obj(fields) =>
      forall k | k in fields ensures Unpack(digest, files, fields[k], seen) == Ok(fields[k]) {
        InertIsLeftAlone(digest, files, fields[k], seen);
      }
    case Arr(rows) =>
      forall i | 0 <= i < |rows| ensures Unpack(digest, files, rows[i], seen) == Ok(rows[i]) {
        InertIsLeftAlone(digest, files, rows[i], seen);
      }
    case _ =>
  }

  lemma ReferenceQuotes(id: string, whole: bool)
    ensures Mentions(Reference(id, whole), id)
  {
    assert Reference(id, whole).fields[REFERENCE] == Str(id);
  }

  lemma FieldQuotesBelow(digest: Json -> string, rank: Json -> nat, fields: map<string, Json>, key: string, bound: nat)
    requires key in fields && QuotesBelow(digest, rank, Obj(fields), bound)
    ensures QuotesBelow(digest, rank, fields[key], bound)
  {
    forall b | Mentions(fields[key], digest(b)) ensures rank(b) < bound {
      assert Mentions(Obj(fields), digest(b));
    }
  }

  /** A body stored for `j` ranks below anything the packed form of `j` quotes. */
  lemma {:induction false} BodiesRankBelow(
      digest: Json -> string, rank: Json -> nat, large: Json -> bool, j: Json, bound: nat)
    requires Acyclic(digest, rank)
    requires Pack(digest, large, j).Ok?
    requires QuotesBelow(digest, rank, Pack(digest, large, j).value, bound)
    ensures forall b | b in Bodies(digest, large, j) :: rank(b) < bound
    decreases j, 0
  {
    if j.Obj? && REFERENCE !in j.fields {
      var body := PackFields(digest, large, j);
      var below := bound;
      if large(body) {
        ReferenceQuotes(digest(body), false);
        below := rank(body);
        assert QuotesBelow(digest, rank, body, below);
      }
      forall k | k in j.fields
        ensures forall b | b in FieldBodies(digest, large, k, j.fields[k]) :: rank(b) < bound
      {
        FieldQuotesBelow(digest, rank, body.fields, k, below);
        FieldRanksBelow(digest, rank, large, k, j.fields[k], below);
      }
    } else {
      ReferenceQuotes(digest(j), j.Obj?);
    }
  }

  lemma {:induction false} FieldRanksBelow(
      digest: Json -> string, rank: Json -> nat, large: Json -> bool, key: string, j: Json, bound: nat)
    requires Acyclic(digest, rank)
    requires PackField(digest, large, key, j).Ok?
    requires QuotesBelow(digest, rank, PackField(digest, large, key, j).value, bound)
    ensures forall b | b in FieldBodies(digest, large, key, j) :: rank(b) < bound
    decreases j, 1
  {
    if !IsRowKey(key) {
      BodiesRankBelow(digest, rank, large, j, bound);
    } else if j.Arr? {
      var packed := PackRows(digest, j.rows);
      forall i | 0 <= i < |j.rows| ensures rank(j.rows[i]) < bound {
        ReferenceQuotes(digest(j.rows[i]), true);
        assert Mentions(packed.rows[i], digest(j.rows[i]));
        assert Mentions(packed, digest(j.rows[i]));
      }
    }
  }

  lemma ReferenceIsFollowed(
      digest: Json -> string, files: map<string, Json>, b: Json, whole: bool, seen: set<string>)
    requires NamesAreHex(digest) && Holds(digest, files, {b}) && digest(b) !in seen
    ensures Unpack(digest, files, Reference(digest(b), whole), seen)
         == if whole then Ok(b) else Unpack(digest, files, b, seen + {digest(b)})
  {
    var r := Reference(digest(b), whole);
    assert b in {b};
    assert r.fields.Keys == if whole then {REFERENCE, RAW} else {REFERENCE};
  }

  lemma BodyReadsBack(
      digest: Json -> string, large: Json -> bool, files: map<string, Json>, j: Json, seen: set<string>)
    requires j.Obj? && REFERENCE !in j.fields && Pack(digest, large, j).Ok?
    requires var body := PackFields(digest, large, j);
      forall k | k in j.fields :: Unpack(digest, files, body.fields[k], seen) == Ok(j.fields[k])
    ensures Unpack(digest, files, PackFields(digest, large, j), seen) == Ok(j)
  {
    var body := PackFields(digest, large, j);
    assert body.fields.Keys == j.fields.Keys;
    FieldsExpandTo(digest, files, body.fields, seen, j.fields);
  }

  /** Packing and then reading gives the document back. */
  lemma {:induction false} ReadsBack(
      digest: Json -> string, rank: Json -> nat, large: Json -> bool,
      files: map<string, Json>, j: Json, seen: set<string>)
    requires IsDigest(digest, rank) && Pack(digest, large, j).Ok? && Packable(j)
    requires Holds(digest, files, Bodies(digest, large, j))
    requires forall b | b in Bodies(digest, large, j) :: digest(b) !in seen
    ensures Unpack(digest, files, Pack(digest, large, j).value, seen) == Ok(j)
    decreases j, 0
  {
    if j.Obj? && REFERENCE !in j.fields {
      var body := PackFields(digest, large, j);
      forall k | k in j.fields ensures FieldBodies(digest, large, k, j.fields[k]) <= Bodies(digest, large, j) {}
      if large(body) {
        assert body in Bodies(digest, large, j);
        ReferenceIsFollowed(digest, files, body, false, seen);
        var inner := seen + {digest(body)};
        forall k | k in j.fields
          ensures Unpack(digest, files, body.fields[k], inner) == Ok(j.fields[k])
        {
          FieldQuotesBelow(digest, rank, body.fields, k, rank(body));
          FieldRanksBelow(digest, rank, large, k, j.fields[k], rank(body));
          FieldReadsBack(digest, rank, large, files, k, j.fields[k], inner);
        }
        BodyReadsBack(digest, large, files, j, inner);
      } else {
        forall k | k in j.fields
          ensures Unpack(digest, files, body.fields[k], seen) == Ok(j.fields[k])
        {
          FieldReadsBack(digest, rank, large, files, k, j.fields[k], seen);
        }
        BodyReadsBack(digest, large, files, j, seen);
      }
    } else if j.Obj? || large(j) {
      assert j in Bodies(digest, large, j);
      ReferenceIsFollowed(digest, files, j, j.Obj?, seen);
      if !j.Obj? { InertIsLeftAlone(digest, files, j, seen + {digest(j)}); }
    } else {
      InertIsLeftAlone(digest, files, j, seen);
    }
  }

  lemma {:induction false} FieldReadsBack(
      digest: Json -> string, rank: Json -> nat, large: Json -> bool,
      files: map<string, Json>, key: string, j: Json, seen: set<string>)
    requires IsDigest(digest, rank) && PackField(digest, large, key, j).Ok? && (IsRowKey(key) || Packable(j))
    requires Holds(digest, files, FieldBodies(digest, large, key, j))
    requires forall b | b in FieldBodies(digest, large, key, j) :: digest(b) !in seen
    ensures Unpack(digest, files, PackField(digest, large, key, j).value, seen) == Ok(j)
    decreases j, 1
  {
    if !IsRowKey(key) {
      ReadsBack(digest, rank, large, files, j, seen);
    } else if j.Arr? {
      var packed := PackRows(digest, j.rows);
      forall i | 0 <= i < |j.rows|
        ensures Unpack(digest, files, packed.rows[i], seen) == Ok(j.rows[i])
      {
        assert j.rows[i] in FieldBodies(digest, large, key, j);
        ReferenceIsFollowed(digest, files, j.rows[i], true, seen);
      }
    }
  }

  // ---- The converse: a document that is not packable never reads back ----

  lemma NamedRanksBelow(digest: Json -> string, rank: Json -> nat, fields: map<string, Json>, named: Json)
    requires Acyclic(digest, rank) && REFERENCE in fields && fields[REFERENCE] == Str(digest(named))
    ensures rank(named) < rank(Obj(fields))
  {
    assert Mentions(Obj(fields), digest(named));
  }

  /** Expanding an object that is no reference keeps its keys. */
  lemma ExpandsInPlaceOrFollows(
      digest: Json -> string, files: map<string, Json>, c: Json, seen: set<string>, r: Json)
    requires Unpack(digest, files, c, seen) == Ok(r) && r.Obj?
    ensures c.Obj? && (IsReference(c.fields) || c.fields.Keys == r.fields.Keys)
  {}

  /** An expansion that ends in a lone reference shape has come from a higher document. */
  lemma {:induction false} ExpansionRanksBelow(
      digest: Json -> string, rank: Json -> nat, files: map<string, Json>, c: Json, seen: set<string>, r: Json)
    requires Acyclic(digest, rank) && Unpack(digest, files, c, seen) == Ok(r)
    requires r.Obj? && REFERENCE in r.fields && |r.fields| == 1
    ensures rank(r) < rank(c)
    decreases files.Keys - seen
  {
    ExpandsInPlaceOrFollows(digest, files, c, seen, r);
    assert |c.fields.Keys| == 1 ==> |c.fields| == 1;
    var id := c.fields[REFERENCE].text;
    var next := files[id];
    NamedRanksBelow(digest, rank, c.fields, next);
    if RAW !in c.fields {
      ExpansionRanksBelow(digest, rank, files, next, seen + {id}, r);
    }
  }

  lemma ReferenceIsNeverItself(
      digest: Json -> string, rank: Json -> nat, files: map<string, Json>, j: Json, seen: set<string>)
    requires Acyclic(digest, rank) && j.Obj? && IsReference(j.fields)
    ensures Unpack(digest, files, j, seen) != Ok(j)
  {
    if Unpack(digest, files, j, seen) == Ok(j) {
      var id := j.fields[REFERENCE].text;
      NamedRanksBelow(digest, rank, j.fields, files[id]);
      if RAW !in j.fields {
        ExpansionRanksBelow(digest, rank, files, files[id], seen + {id}, j);
      }
    }
  }

  /** Reading leaves exactly the inert documents alone. */
  lemma {:induction false} LeftAloneIffInert(
      digest: Json -> string, rank: Json -> nat, files: map<string, Json>, j: Json, seen: set<string>)
    requires Acyclic(digest, rank)
    ensures Unpack(digest, files, j, seen) == Ok(j) <==> Inert(j)
  {
    match j
    case Obj(fields) =>
      if IsReference(fields) {
        ReferenceIsNeverItself(digest, rank, files, j, seen);
      } else {
        forall k | k in fields
          ensures Unpack(digest, files, fields[k], seen) == Ok(fields[k]) <==> Inert(fields[k])
        {
          LeftAloneIffInert(digest, rank, files, fields[k], seen);
        }
      }
    case Arr(rows) =>
      forall i | 0 <= i < |rows|
        ensures Unpack(digest, files, rows[i], seen) == Ok(rows[i]) <==> Inert(rows[i])
      {
        LeftAloneIffInert(digest, rank, files, rows[i], seen);
      }
    case _ =>
  }

  lemma {:induction false} OnlyPackableReadsBack(
      digest: Json -> string, rank: Json -> nat, large: Json -> bool,
      files: map<string, Json>, j: Json, seen: set<string>)
    requires IsDigest(digest, rank) && Pack(digest, large, j).Ok?
    requires Holds(digest, files, Bodies(digest, large, j))
    requires Unpack(digest, files, Pack(digest, large, j).value, seen) == Ok(j)
    ensures Packable(j)
  {
    if j.Obj? && REFERENCE !in j.fields {
      var body := PackFields(digest, large, j);
      var inner := seen;
      if large(body) {
        var r := Reference(digest(body), false);
        assert body in Bodies(digest, large, j) && r.fields.Keys == {REFERENCE};
        inner := seen + {digest(body)};
      }
      assert Unpack(digest, files, body, inner) == Ok(j);
      forall k | k in j.fields && !IsRowKey(k) ensures Packable(j.fields[k]) {
        assert Unpack(digest, files, body.fields[k], inner) == Ok(j.fields[k]);
        assert FieldBodies(digest, large, k, j.fields[k]) <= Bodies(digest, large, j);
        OnlyPackableReadsBack(digest, rank, large, files, j.fields[k], inner);
      }
    } else if !j.Obj? {
      var inner := seen;
      if large(j) {
        var r := Reference(digest(j), false);
        assert j in Bodies(digest, large, j) && r.fields.Keys == {REFERENCE};
        inner := seen + {digest(j)};
      }
      LeftAloneIffInert(digest, rank, files, j, inner);
    }
  }

  // ---- A whole checkpoint ----

  /** The root on disk: the packed document is itself stored, and the root only names it. */
  function Root(digest: Json -> string, packed: Json): Json {
    Reference(digest(packed), false)
  }

  /** The objects behind a saved document. */
  function Saved(digest: Json -> string, large: Json -> bool, doc: Json): set<Json>
    requires Pack(digest, large, doc).Ok?
  {
    Bodies(digest, large, doc) + {Pack(digest, large, doc).value}
  }

  /** Main result: with the saved objects in the directory, whatever else it holds, the root
      reads back as the document if and only if the document is packable. */
  lemma ReadsBackIffPackable(
      digest: Json -> string, rank: Json -> nat, large: Json -> bool, files: map<string, Json>, doc: Json)
    requires IsDigest(digest, rank) && Pack(digest, large, doc).Ok?
    requires Holds(digest, files, Saved(digest, large, doc))
    ensures Unpack(digest, files, Root(digest, Pack(digest, large, doc).value), {}) == Ok(doc) <==> Packable(doc)
  {
    var packed := Pack(digest, large, doc).value;
    assert packed in Saved(digest, large, doc);
    ReferenceIsFollowed(digest, files, packed, false, {});
    var seen := {digest(packed)};
    assert {} + seen == seen;
    if Packable(doc) {
      assert QuotesBelow(digest, rank, packed, rank(packed));
      BodiesRankBelow(digest, rank, large, doc, rank(packed));
      ReadsBack(digest, rank, large, files, doc, seen);
    }
    if Unpack(digest, files, packed, seen) == Ok(doc) {
      OnlyPackableReadsBack(digest, rank, large, files, doc, seen);
    }
  }
}
