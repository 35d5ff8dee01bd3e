/** File identity: the genesis record, its frozen serialization, and the self-certifying id. */
module Identity {
  import opened Wrappers
  import opened Text
  import opened Wal
  import opened Catalogs

  function CanonicalBytes(g: Genesis): string {
    Line("content_sha256", g.contentSha) + (Line("original_path", g.originalPath) + (Line("ingest_op_id", g.ingestOpID) + Line("origin_node", g.originNode)))
  }

  /** The serializer, field by field in frozen order. */
  method SerializeGenesis(g: Genesis) returns (b: string)
    ensures b == CanonicalBytes(g)
  {
    b := WriteLine("", "content_sha256", g.contentSha);
    b := WriteLine(b, "original_path", g.originalPath);
    b := WriteLine(b, "ingest_op_id", g.ingestOpID);
    b := WriteLine(b, "origin_node", g.originNode);
  }

  function ParseGenesis(t: string): Option<Genesis> {
    match ReadLine("content_sha256", t) case None => None case Some((sha, t1)) =>
    match ReadLine("original_path", t1) case None => None case Some((path, t2)) =>
    match ReadLine("ingest_op_id", t2) case None => None case Some((op, t3)) =>
    match ReadLine("origin_node", t3) case None => None case Some((node, t4)) =>
    if t4 == "" then Some(Genesis(sha, path, op, node)) else None
  }

  /** Every record can be read back from its serialization. */
  lemma GenesisRoundTrip(g: Genesis)
    ensures ParseGenesis(CanonicalBytes(g)) == Some(g)
  {
    var l4 := Line("origin_node", g.originNode);
    var l3 := Line("ingest_op_id", g.ingestOpID) + l4;
    var l2 := Line("original_path", g.originalPath) + l3;
    LineReadsBack("content_sha256", g.contentSha, l2);
    LineReadsBack("original_path", g.originalPath, l3);
    LineReadsBack("ingest_op_id", g.ingestOpID, l4);
    LineReadsBack("origin_node", g.originNode, "");
    assert l4 + "" == l4;
  }

  predicate IsLowerHex(s: string) {
    forall c :: c in s ==> IsDigit(c) || 'a' <= c <= 'f'
  }

  /** A collision-free hash with lower-case hex digests. */
  ghost predicate GoodHash(h: string -> string) {
    Injective(h) && forall x :: IsLowerHex(h(x))
  }

  function MintID(h: string -> string, g: Genesis): string {
    h(CanonicalBytes(g))
  }

  /** One id, one birth record. */
  lemma EqualIDsEqualGenesis(h: string -> string, a: Genesis, b: Genesis)
    requires Injective(h) && MintID(h, a) == MintID(h, b)
    ensures a == b
  {
    GenesisRoundTrip(a);
    GenesisRoundTrip(b);
  }

  function LowerChar(c: char): char {
    if 'A' <= c <= 'Z' then c + 32 as char else c
  }

  function Lower(s: string): string {
    seq(|s|, i requires 0 <= i < |s| => LowerChar(s[i]))
  }

  predicate IsSpace(c: char) {
    c in [' ', TAB, LF, CR, 11 as char, FF]
  }

  function Trim(s: string): string
    decreases |s|
  {
    if s != "" && IsSpace(s[0]) then Trim(s[1..])
    else if s != "" && IsSpace(s[|s| - 1]) then Trim(s[..|s| - 1])
    else s
  }

  /** Does g self-certify the claimed id? Case and surrounding blanks do not matter. */
  function Verify(h: string -> string, g: Genesis, id: string): bool {
    MintID(h, g) == Lower(Trim(id))
  }

  lemma MintedVerifies(h: string -> string, g: Genesis)
    requires GoodHash(h)
    ensures Verify(h, g, MintID(h, g))
  {
    var id := MintID(h, g);
    assert Trim(id) == id by {
      if id != "" {
        assert id[0] in id && id[|id| - 1] in id;
      }
    }
    assert Lower(id) == id by {
      forall i | 0 <= i < |id|
        ensures LowerChar(id[i]) == id[i]
      {
        assert id[i] in id;
      }
    }
  }

  predicate IsHex64(s: string) {
    |s| == 64 && IsLowerHex(s)
  }

  predicate Validate(g: Genesis) {
    IsHex64(g.contentSha) && g.originalPath != "" && g.ingestOpID != "" && g.originNode != ""
  }

  /** The genesis an ingest entry recorded; the origin node is the node whose log holds it. */
  function FromIngestEntry(e: Entry, node: string): Option<Genesis> {
    var g := Genesis(ArgOf(e, ContentSha256), ArgOf(e, Arg.Path), e.opID, node);
    if e.opType == OpType.Ingest && Validate(g) then Some(g) else None
  }
}
