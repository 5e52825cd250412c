/** JSON documents as trees, and the digest that names them.

    The checkpoint store names every immutable object by a digest of its text. Here the digest
    is a function of the tree, so two texts of one tree share a name. */
module Json {
  datatype Json =
    | Null
    | True
    | False
    | Num(text: string)
    | Str(text: string)
    | Arr(rows: seq<Json>)
    | Obj(fields: map<string, Json>)

  /** A document, or the failure to produce one. */
  datatype Outcome = Ok(value: Json) | Err

  /** `text` occurs as a string value somewhere inside `j`. */
  predicate Mentions(j: Json, text: string) {
    match j
    case Str(t) => t == text
    case Arr(rows) => exists i | 0 <= i < |rows| :: Mentions(rows[i], text)
    case Obj(fields) => exists k | k in fields :: Mentions(fields[k], text)
    case _ => false
  }

  /** A nonempty lower-case hexadecimal name. */
  predicate IsHex(s: string) {
    s != "" && forall i | 0 <= i < |s| :: '0' <= s[i] <= '9' || 'a' <= s[i] <= 'f'
  }

  // What is assumed of the digest: no collisions, hexadecimal names, and no cycle of documents
  // each of which quotes the digest of the next (`rank` is the witness of that).

  ghost predicate Injective(digest: Json -> string) {
    forall a, b :: digest(a) == digest(b) ==> a == b
  }

  ghost predicate NamesAreHex(digest: Json -> string) {
    forall a :: IsHex(digest(a))
  }

  ghost predicate Acyclic(digest: Json -> string, rank: Json -> nat) {
    forall a, b :: Mentions(a, digest(b)) ==> rank(b) < rank(a)
  }

  ghost predicate IsDigest(digest: Json -> string, rank: Json -> nat) {
    Injective(digest) && NamesAreHex(digest) && Acyclic(digest, rank)
  }

  /** Everything whose digest `j` quotes ranks below `bound`. */
  ghost predicate QuotesBelow(digest: Json -> string, rank: Json -> nat, j: Json, bound: nat) {
    forall b :: Mentions(j, digest(b)) ==> rank(b) < bound
  }
}
