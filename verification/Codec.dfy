/** The frozen text form of a log entry, whose bytes the hash chain commits to, and a reader for it:
    reading inverts writing, so no two entries share their bytes. */
module Codec {
  import opened Wrappers
  import opened Order
  import opened Text

  /** A UTC instant as the calendar shows it. */
  datatype Utc = Utc(year: nat, month: nat, day: nat, hour: nat, minute: nat, second: nat, nanos: nat)

  /** An entry as it is written to its file. */
  datatype Record = Record(slot: nat, opID: string, prevHash: string, opType: string, blobRefs: seq<string>,
                           actor: string, createdAt: Utc, args: map<string, string>)

  // ---- timestamps ------------------------------------------------------------------------

  /** The last w digits of n, zeros included. */
  function Padded(n: nat, w: nat): (s: string)
    ensures |s| == w && AllDigits(s)
  {
    if w == 0 then "" else Padded(n / 10, w - 1) + [Digit(n % 10)]
  }

  lemma TenSplits(n: nat, p: nat)
    requires n < 10 * p
    ensures n / 10 < p && n == n / 10 * 10 + n % 10
  {
  }

  lemma {:induction false} PaddedReadsBack(n: nat, w: nat)
    requires n < Pow10(w)
    ensures DecimalValue(Padded(n, w)) == n
  {
    if w > 0 {
      TenSplits(n, Pow10(w - 1));
      PaddedReadsBack(n / 10, w - 1);
      var s := Padded(n, w);
      assert s[..w - 1] == Padded(n / 10, w - 1) && s[w - 1] == Digit(n % 10);
    }
  }

  function TrimZeros(s: string): (r: string)
    ensures r <= s
  {
    if s != "" && s[|s| - 1] == '0' then TrimZeros(s[..|s| - 1]) else s
  }

  function PadZeros(s: string, w: nat): string
    decreases w - |s|
  {
    if |s| >= w then s else PadZeros(s + "0", w)
  }

  lemma {:induction false} TrimmedPadsBack(s: string)
    ensures PadZeros(TrimZeros(s), |s|) == s
  {
    if s != "" && s[|s| - 1] == '0' {
      var t := s[..|s| - 1];
      TrimmedPadsBack(t);
      PadMore(TrimZeros(t), |t|);
      assert t + "0" == s;
    }
  }

  lemma {:induction false} PadMore(s: string, w: nat)
    requires |s| <= w
    ensures PadZeros(s, w + 1) == PadZeros(s, w) + "0"
    decreases w - |s|
  {
    if |s| < w {
      PadMore(s + "0", w);
    } else {
      assert PadZeros(s + "0", w + 1) == s + "0";
    }
  }

  predicate ValidUtc(u: Utc) {
    u.year < 10000 && u.month < 100 && u.day < 100 && u.hour < 100 && u.minute < 100 && u.second < 100 && u.nanos < 1_000_000_000
  }

  /** The fraction of a second, trailing zeros dropped, and nothing at all for a whole second. */
  function Fraction(nanos: nat): string {
    if nanos == 0 then "" else "." + TrimZeros(Padded(nanos, 9))
  }

  function DatePart(u: Utc, tail: string): string {
    Padded(u.year, 4) + ("-" + (Padded(u.month, 2) + ("-" + (Padded(u.day, 2) + tail))))
  }

  function TimePart(u: Utc, tail: string): string {
    Padded(u.hour, 2) + (":" + (Padded(u.minute, 2) + (":" + (Padded(u.second, 2) + (Fraction(u.nanos) + tail)))))
  }

  function Stamp(u: Utc): string {
    DatePart(u, "T" + TimePart(u, "Z"))
  }

  /** The number in the first w characters. */
  function ReadPadded(t: string, w: nat): Option<(nat, string)> {
    if |t| >= w && AllDigits(t[..w]) then Some((DecimalValue(t[..w]), t[w..])) else None
  }

  lemma PaddedIsRead(n: nat, w: nat, rest: string)
    requires n < Pow10(w)
    ensures ReadPadded(Padded(n, w) + rest, w) == Some((n, rest))
  {
    PaddedReadsBack(n, w);
    var t := Padded(n, w) + rest;
    assert t[..w] == Padded(n, w) && t[w..] == rest;
  }

  /** The digits at the front of t, and what follows. */
  function ReadDigits(t: string): (string, string) {
    if t == "" || !IsDigit(t[0]) then ("", t)
    else
      var (ds, rest) := ReadDigits(t[1..]);
      ([t[0]] + ds, rest)
  }

  lemma {:induction false} DigitsAreRead(s: string, rest: string)
    requires AllDigits(s) && (rest == "" || !IsDigit(rest[0]))
    ensures ReadDigits(s + rest) == (s, rest)
  {
    if s == "" {
      assert s + rest == rest;
    } else {
      assert s[0] in s && forall c :: c in s[1..] ==> c in s;
      assert (s + rest)[1..] == s[1..] + rest;
      DigitsAreRead(s[1..], rest);
      assert [s[0]] + s[1..] == s;
    }
  }

  function ReadFraction(t: string): Option<(nat, string)> {
    if t == "" || t[0] != '.' then Some((0, t))
    else
      var (ds, rest) := ReadDigits(t[1..]);
      var all := PadZeros(ds, 9);
      if |ds| > 9 || !AllDigits(all) then None else Some((DecimalValue(all), rest))
  }

  lemma {:induction false} TrimKeepsDigits(s: string)
    requires AllDigits(s)
    ensures AllDigits(TrimZeros(s))
  {
    assert forall c :: c in TrimZeros(s) ==> c in s;
  }

  lemma NineDigits()
    ensures Pow10(9) == 1_000_000_000
  {
    assert Pow10(3) == 1000;
    assert Pow10(6) == 10 * (10 * (10 * Pow10(3)));
    assert Pow10(9) == 10 * (10 * (10 * Pow10(6)));
  }

  lemma DotSplits(ds: string, rest: string)
    ensures var t := "." + ds + rest; t != "" && t[0] == '.' && t[1..] == ds + rest
  {
  }

  lemma DotDigitsAreRead(t: string, ds: string, nine: string, rest: string)
    requires t != "" && t[0] == '.' && ReadDigits(t[1..]) == (ds, rest)
    requires |ds| <= 9 && AllDigits(nine) && PadZeros(ds, 9) == nine
    ensures ReadFraction(t) == Some((DecimalValue(nine), rest))
  {
  }

  lemma FractionIsRead(nanos: nat, rest: string)
    requires nanos < 1_000_000_000 && rest != "" && rest[0] == 'Z'
    ensures ReadFraction(Fraction(nanos) + rest) == Some((nanos, rest))
  {
    if nanos > 0 {
      var nine := Padded(nanos, 9);
      NineDigits();
      PaddedReadsBack(nanos, 9);
      TrimmedPadsBack(nine);
      TrimKeepsDigits(nine);
      DigitsAreRead(TrimZeros(nine), rest);
      DotSplits(TrimZeros(nine), rest);
      DotDigitsAreRead(Fraction(nanos) + rest, TrimZeros(nine), nine, rest);
    } else {
      assert Fraction(nanos) + rest == rest;
    }
  }

  function ReadDate(t: string): Option<((nat, nat, nat), string)> {
    match ReadPadded(t, 4) case None => None case Some((year, t1)) =>
    match Expect("-", t1) case None => None case Some(t2) =>
    match ReadPadded(t2, 2) case None => None case Some((month, t3)) =>
    match Expect("-", t3) case None => None case Some(t4) =>
    match ReadPadded(t4, 2) case None => None case Some((day, t5)) =>
    Some(((year, month, day), t5))
  }

  function ReadTime(t: string): Option<((nat, nat, nat, nat), string)> {
    match ReadPadded(t, 2) case None => None case Some((hour, t1)) =>
    match Expect(":", t1) case None => None case Some(t2) =>
    match ReadPadded(t2, 2) case None => None case Some((minute, t3)) =>
    match Expect(":", t3) case None => None case Some(t4) =>
    match ReadPadded(t4, 2) case None => None case Some((second, t5)) =>
    match ReadFraction(t5) case None => None case Some((nanos, t6)) =>
    Some(((hour, minute, second, nanos), t6))
  }

  function ReadStamp(t: string): Option<(Utc, string)> {
    match ReadDate(t) case None => None case Some((d, t1)) =>
    match Expect("T", t1) case None => None case Some(t2) =>
    match ReadTime(t2) case None => None case Some((c, t3)) =>
    match Expect("Z", t3) case None => None case Some(rest) =>
    Some((Utc(d.0, d.1, d.2, c.0, c.1, c.2, c.3), rest))
  }

  lemma DateIsRead(u: Utc, tail: string)
    requires ValidUtc(u)
    ensures ReadDate(DatePart(u, tail)) == Some(((u.year, u.month, u.day), tail))
  {
    assert Pow10(2) == 100 && Pow10(4) == 10000;
    var t4 := Padded(u.day, 2) + tail;
    var t3 := "-" + t4;
    var t2 := Padded(u.month, 2) + t3;
    var t1 := "-" + t2;
    PaddedIsRead(u.year, 4, t1);
    ExpectPrefix("-", t2);
    PaddedIsRead(u.month, 2, t3);
    ExpectPrefix("-", t4);
    PaddedIsRead(u.day, 2, tail);
  }

  lemma TimeIsRead(u: Utc, tail: string)
    requires ValidUtc(u) && tail != "" && tail[0] == 'Z'
    ensures ReadTime(TimePart(u, tail)) == Some(((u.hour, u.minute, u.second, u.nanos), tail))
  {
    assert Pow10(2) == 100;
    var t5 := Fraction(u.nanos) + tail;
    var t4 := Padded(u.second, 2) + t5;
    var t3 := ":" + t4;
    var t2 := Padded(u.minute, 2) + t3;
    var t1 := ":" + t2;
    PaddedIsRead(u.hour, 2, t1);
    ExpectPrefix(":", t2);
    PaddedIsRead(u.minute, 2, t3);
    ExpectPrefix(":", t4);
    PaddedIsRead(u.second, 2, t5);
    FractionIsRead(u.nanos, tail);
  }

  lemma DateAppends(u: Utc, a: string, b: string)
    ensures DatePart(u, a) + b == DatePart(u, a + b)
  {
  }

  lemma TimeAppends(u: Utc, a: string, b: string)
    ensures TimePart(u, a) + b == TimePart(u, a + b)
  {
  }

  lemma Assoc(a: string, b: string, c: string)
    ensures (a + b) + c == a + (b + c)
  {
  }

  lemma StampAppends(u: Utc, rest: string)
    ensures Stamp(u) + rest == DatePart(u, "T" + TimePart(u, "Z" + rest))
  {
    var time := TimePart(u, "Z");
    DateAppends(u, "T" + time, rest);
    Assoc("T", time, rest);
    TimeAppends(u, "Z", rest);
  }

  lemma StampPieces(t: string, d: (nat, nat, nat), t2: string, c: (nat, nat, nat, nat), rest: string)
    requires ReadDate(t) == Some((d, "T" + t2)) && ReadTime(t2) == Some((c, "Z" + rest))
    ensures ReadStamp(t) == Some((Utc(d.0, d.1, d.2, c.0, c.1, c.2, c.3), rest))
  {
    ExpectPrefix("T", t2);
    ExpectPrefix("Z", rest);
  }

  /** A timestamp of any year up to 9999 reads back to the nanosecond. */
  lemma StampIsRead(u: Utc, rest: string)
    requires ValidUtc(u)
    ensures ReadStamp(Stamp(u) + rest) == Some((u, rest))
  {
    var t2 := TimePart(u, "Z" + rest);
    StampAppends(u, rest);
    DateIsRead(u, "T" + t2);
    TimeIsRead(u, "Z" + rest);
    StampPieces(Stamp(u) + rest, (u.year, u.month, u.day), t2, (u.hour, u.minute, u.second, u.nanos), rest);
  }

  // ---- lists and tables ------------------------------------------------------------------

  function Quoted(s: string): string {
    [QUOTE] + Escape(s) + [QUOTE]
  }

  function RefsText(refs: seq<string>): string {
    if refs == [] then "" else if |refs| == 1 then Quoted(refs[0]) else Quoted(refs[0]) + ", " + RefsText(refs[1..])
  }

  /** The quoted strings up to the closing bracket, and what follows it. */
  function ReadRefs(t: string): (r: Option<(seq<string>, string)>)
    decreases |t|
  {
    if t != "" && t[0] == ']' then Some(([], t[1..]))
    else if t == "" || t[0] != QUOTE then None
    else match ReadQuoted(t[1..])
      case None => None
      case Some((ref, after)) =>
        if after != "" && after[0] == ']' then Some(([ref], after[1..]))
        else match Expect(", ", after)
          case None => None
          case Some(more) =>
            match ReadRefs(more)
            case None => None
            case Some((refs, rest)) => if refs == [] then None else Some(([ref] + refs, rest))
  }

  lemma RefIsRead(ref: string, rest: string)
    ensures var t := Quoted(ref) + rest; t[0] == QUOTE && ReadQuoted(t[1..]) == Some((ref, rest))
  {
    var t := Quoted(ref) + rest;
    assert t[1..] == Escape(ref) + [QUOTE] + rest;
    QuotedReadsBack(ref, rest);
  }

  lemma LastRefIsRead(ref: string, rest: string)
    ensures ReadRefs(Quoted(ref) + ("]" + rest)) == Some(([ref], rest))
  {
    RefIsRead(ref, "]" + rest);
    assert ("]" + rest)[1..] == rest;
  }

  lemma NextRefIsRead(ref: string, refs: seq<string>, more: string, rest: string)
    requires ReadRefs(more) == Some((refs, rest)) && refs != []
    ensures ReadRefs(Quoted(ref) + (", " + more)) == Some(([ref] + refs, rest))
  {
    RefIsRead(ref, ", " + more);
    ExpectPrefix(", ", more);
  }

  lemma Glue(a: string, b: string, c: string, d: string, e: string)
    ensures a + b + c + d + e == a + (b + (c + d + e))
  {
  }

  lemma {:induction false} RefsAreRead(refs: seq<string>, rest: string)
    ensures ReadRefs(RefsText(refs) + "]" + rest) == Some((refs, rest))
  {
    var t := RefsText(refs) + "]" + rest;
    if refs == [] {
      assert t[1..] == rest;
    } else if |refs| == 1 {
      OneRefText(refs, rest);
      LastRefIsRead(refs[0], rest);
    } else {
      ManyRefsText(refs, rest);
      RefsAreRead(refs[1..], rest);
      NextRefIsRead(refs[0], refs[1..], RefsText(refs[1..]) + "]" + rest, rest);
    }
  }

  lemma OneRefText(refs: seq<string>, rest: string)
    requires |refs| == 1
    ensures RefsText(refs) + "]" + rest == Quoted(refs[0]) + ("]" + rest) && refs == [refs[0]]
  {
    Assoc(Quoted(refs[0]), "]", rest);
  }

  lemma ManyRefsText(refs: seq<string>, rest: string)
    requires |refs| > 1
    ensures RefsText(refs) + "]" + rest == Quoted(refs[0]) + (", " + (RefsText(refs[1..]) + "]" + rest)) && refs == [refs[0]] + refs[1..]
  {
    Glue(Quoted(refs[0]), ", ", RefsText(refs[1..]), "]", rest);
  }

  /** Keys are written bare, so they must not contain what ends them. */
  predicate Bare(key: string) {
    ' ' !in key
  }

  function ReadKey(t: string): string {
    if t == "" || t[0] == ' ' then "" else [t[0]] + ReadKey(t[1..])
  }

  lemma {:induction false} KeyIsRead(key: string, rest: string)
    requires Bare(key)
    ensures ReadKey(key + " " + rest) == key
  {
    var t := key + " " + rest;
    if key != "" {
      assert key[0] in key;
      assert t[1..] == key[1..] + " " + rest;
      KeyIsRead(key[1..], rest);
      assert [key[0]] + key[1..] == key;
    }
  }

  type Pairs = seq<(string, string)>

  function ArgLines(ps: Pairs): string {
    if ps == [] then "" else Line(ps[0].0, ps[0].1) + ArgLines(ps[1..])
  }

  function ReadArgs(t: string): Option<Pairs>
    decreases |t|
  {
    if t == "" then Some([])
    else
      var key := ReadKey(t);
      match ReadLine(key, t)
      case None => None
      case Some((val, rest)) =>
        if |rest| >= |t| then None
        else match ReadArgs(rest)
          case None => None
          case Some(ps) => Some([(key, val)] + ps)
  }

  lemma ArgIsRead(key: string, val: string, rest: string)
    requires Bare(key)
    ensures var t := Line(key, val) + rest; t != "" && ReadKey(t) == key && ReadLine(key, t) == Some((val, rest)) && |rest| < |t|
  {
    var t := Line(key, val) + rest;
    var tail := "= " + [QUOTE] + Escape(val) + [QUOTE] + [LF] + rest;
    assert t == key + " " + tail;
    KeyIsRead(key, tail);
    LineReadsBack(key, val, rest);
  }

  lemma {:induction false} ArgsAreRead(ps: Pairs)
    requires forall p :: p in ps ==> Bare(p.0)
    ensures ReadArgs(ArgLines(ps)) == Some(ps)
  {
    if ps != [] {
      assert ps[0] in ps;
      ArgIsRead(ps[0].0, ps[0].1, ArgLines(ps[1..]));
      ArgsAreRead(ps[1..]);
      assert [ps[0]] + ps[1..] == ps;
    }
  }

  // ---- entries ---------------------------------------------------------------------------

  /** An entry with its argument table as the ordered list it is written as. */
  datatype Draft = Draft(slot: nat, opID: string, prevHash: string, opType: string, blobRefs: seq<string>,
                         actor: string, createdAt: Utc, args: Pairs)

  function ArgsText(ps: Pairs): string {
    if ps == [] then "" else "\n[args]\n" + ArgLines(ps)
  }

  function Head(d: Draft, rest: string): string {
    "seq = " + (Decimal(d.slot) + ("\n" + (Line("op_id", d.opID) + (Line("prev_hash", d.prevHash) + (Line("op_type", d.opType) + rest)))))
  }

  function TailText(d: Draft): string {
    "blob_refs = [" + (RefsText(d.blobRefs) + ("]" + ("\n" + (Line("actor", d.actor) + ("created_at = " + (Stamp(d.createdAt) + ("\n" + ArgsText(d.args))))))))
  }

  function DraftText(d: Draft): string {
    Head(d, TailText(d))
  }

  function ReadArgsText(t: string): Option<Pairs> {
    if t == "" then Some([])
    else match Expect("\n[args]\n", t)
      case None => None
      case Some(rest) => ReadArgs(rest)
  }

  function ReadHead(t: string): Option<(nat, string, string, string, string)> {
    match Expect("seq = ", t) case None => None case Some(t1) =>
    var (ds, t2) := ReadDigits(t1);
    if !AllDigits(ds) then None else
    match Expect("\n", t2) case None => None case Some(t3) =>
    match ReadLine("op_id", t3) case None => None case Some((opID, t4)) =>
    match ReadLine("prev_hash", t4) case None => None case Some((prevHash, t5)) =>
    match ReadLine("op_type", t5) case None => None case Some((opType, t6)) =>
    Some((DecimalValue(ds), opID, prevHash, opType, t6))
  }

  function ReadTail(t: string): Option<(seq<string>, string, Utc, Pairs)> {
    match Expect("blob_refs = [", t) case None => None case Some(t1) =>
    match ReadRefs(t1) case None => None case Some((refs, t2)) =>
    match Expect("\n", t2) case None => None case Some(t3) =>
    match ReadLine("actor", t3) case None => None case Some((actor, t4)) =>
    match Expect("created_at = ", t4) case None => None case Some(t5) =>
    match ReadStamp(t5) case None => None case Some((u, t6)) =>
    match Expect("\n", t6) case None => None case Some(t7) =>
    match ReadArgsText(t7) case None => None case Some(ps) =>
    Some((refs, actor, u, ps))
  }

  function ReadDraft(t: string): Option<Draft> {
    match ReadHead(t) case None => None case Some((slot, opID, prevHash, opType, rest)) =>
    match ReadTail(rest) case None => None case Some((refs, actor, u, ps)) =>
    Some(Draft(slot, opID, prevHash, opType, refs, actor, u, ps))
  }

  lemma HeadIsRead(d: Draft, rest: string)
    ensures ReadHead(Head(d, rest)) == Some((d.slot, d.opID, d.prevHash, d.opType, rest))
  {
    var t6 := rest;
    var t5 := Line("op_type", d.opType) + t6;
    var t4 := Line("prev_hash", d.prevHash) + t5;
    var t3 := Line("op_id", d.opID) + t4;
    var t2 := "\n" + t3;
    var t1 := Decimal(d.slot) + t2;
    ExpectPrefix("seq = ", t1);
    DigitsAreRead(Decimal(d.slot), t2);
    DecimalRoundTrip(d.slot);
    ExpectPrefix("\n", t3);
    LineReadsBack("op_id", d.opID, t4);
    LineReadsBack("prev_hash", d.prevHash, t5);
    LineReadsBack("op_type", d.opType, t6);
  }

  lemma ArgsTextIsRead(ps: Pairs)
    requires forall p :: p in ps ==> Bare(p.0)
    ensures ReadArgsText(ArgsText(ps)) == Some(ps)
  {
    if ps != [] {
      ExpectPrefix("\n[args]\n", ArgLines(ps));
      ArgsAreRead(ps);
    }
  }

  lemma TailIsRead(d: Draft)
    requires ValidUtc(d.createdAt) && forall p :: p in d.args ==> Bare(p.0)
    ensures ReadTail(TailText(d))
         == Some((d.blobRefs, d.actor, d.createdAt, d.args))
  {
    var t7 := ArgsText(d.args);
    var t6 := "\n" + t7;
    var t5 := Stamp(d.createdAt) + t6;
    var t4 := "created_at = " + t5;
    var t3 := Line("actor", d.actor) + t4;
    var t2 := "\n" + t3;
    var t1 := RefsText(d.blobRefs) + ("]" + t2);
    ExpectPrefix("blob_refs = [", t1);
    assert t1 == RefsText(d.blobRefs) + "]" + t2;
    RefsAreRead(d.blobRefs, t2);
    ExpectPrefix("\n", t3);
    LineReadsBack("actor", d.actor, t4);
    ExpectPrefix("created_at = ", t5);
    StampIsRead(d.createdAt, t6);
    ExpectPrefix("\n", t7);
    ArgsTextIsRead(d.args);
  }

  lemma DraftIsRead(d: Draft)
    requires ValidUtc(d.createdAt) && forall p :: p in d.args ==> Bare(p.0)
    ensures ReadDraft(DraftText(d)) == Some(d)
  {
    TailIsRead(d);
    HeadIsRead(d, TailText(d));
  }

  // ---- records ---------------------------------------------------------------------------

  ghost predicate SortedKeysOf(args: map<string, string>, keys: seq<string>) {
    InOrder(keys) && forall k :: k in keys <==> k in args
  }

  function PairsOf(args: map<string, string>, keys: seq<string>): Pairs
    requires forall k :: k in keys ==> k in args
  {
    seq(|keys|, i requires 0 <= i < |keys| => assert keys[i] in keys; (keys[i], args[keys[i]]))
  }

  function DraftOf(r: Record, keys: seq<string>): Draft
    requires forall k :: k in keys ==> k in r.args
  {
    Draft(r.slot, r.opID, r.prevHash, r.opType, r.blobRefs, r.actor, r.createdAt, PairsOf(r.args, keys))
  }

  /** The canonical bytes of a record. */
  ghost predicate IsEncoding(r: Record, text: string) {
    exists keys :: SortedKeysOf(r.args, keys) && text == DraftText(DraftOf(r, keys))
  }

  predicate ValidRecord(r: Record) {
    ValidUtc(r.createdAt) && forall k :: k in r.args ==> Bare(k)
  }

  lemma {:induction false} SortedOnce(a: seq<string>, b: seq<string>)
    requires InOrder(a) && InOrder(b) && forall k :: k in a <==> k in b
    ensures a == b
  {
    assert a != [] ==> a[0] in b;
    assert b != [] ==> b[0] in a;
    if a != [] {
      var i :| 0 <= i < |b| && b[i] == a[0];
      var j :| 0 <= j < |a| && a[j] == b[0];
      LessTrichotomy(a[0], b[0]);
      assert a[0] == b[0];
      LessIrreflexive(a[0]);
      assert a == [a[0]] + a[1..] && b == [b[0]] + b[1..];
      assert forall k :: k in a[1..] <==> k in a && k != a[0];
      assert forall k :: k in b[1..] <==> k in b && k != b[0];
      SortedOnce(a[1..], b[1..]);
    }
  }

  /** Byte stability: a record has one encoding, whatever order its table was built in. */
  lemma EncodingIsUnique(r: Record, s: string, t: string)
    requires IsEncoding(r, s) && IsEncoding(r, t)
    ensures s == t
  {
    var a :| SortedKeysOf(r.args, a) && s == DraftText(DraftOf(r, a));
    var b :| SortedKeysOf(r.args, b) && t == DraftText(DraftOf(r, b));
    SortedOnce(a, b);
  }

  lemma PairsDetermine(x: map<string, string>, a: seq<string>, y: map<string, string>, b: seq<string>)
    requires SortedKeysOf(x, a) && SortedKeysOf(y, b) && PairsOf(x, a) == PairsOf(y, b)
    ensures x == y
  {
    var ps, qs := PairsOf(x, a), PairsOf(y, b);
    forall k
      ensures k in x <==> k in y
      ensures k in x ==> x[k] == y[k]
    {
      if k in x {
        var i :| 0 <= i < |a| && a[i] == k;
        assert ps[i] == qs[i] && b[i] in b;
      }
      if k in y {
        var i :| 0 <= i < |b| && b[i] == k;
        assert ps[i] == qs[i] && a[i] in a;
      }
    }
  }

  lemma DraftsDetermine(r: Record, a: seq<string>, s: Record, b: seq<string>)
    requires SortedKeysOf(r.args, a) && SortedKeysOf(s.args, b) && DraftOf(r, a) == DraftOf(s, b)
    ensures r == s
  {
    PairsDetermine(r.args, a, s.args, b);
  }

  lemma SameTextSameDraft(r: Record, a: seq<string>, s: Record, b: seq<string>, text: string)
    requires ValidRecord(r) && ValidRecord(s) && SortedKeysOf(r.args, a) && SortedKeysOf(s.args, b)
    requires text == DraftText(DraftOf(r, a)) && text == DraftText(DraftOf(s, b))
    ensures DraftOf(r, a) == DraftOf(s, b)
  {
    DraftOfRecordIsRead(r, a);
    DraftOfRecordIsRead(s, b);
  }

  /** Injectivity: two records with the same canonical bytes are the same record. */
  lemma EncodingIsInjective(r: Record, s: Record, text: string)
    requires ValidRecord(r) && ValidRecord(s) && IsEncoding(r, text) && IsEncoding(s, text)
    ensures r == s
  {
    var a :| SortedKeysOf(r.args, a) && text == DraftText(DraftOf(r, a));
    var b :| SortedKeysOf(s.args, b) && text == DraftText(DraftOf(s, b));
    SameTextSameDraft(r, a, s, b, text);
    DraftsDetermine(r, a, s, b);
  }

  lemma DraftOfRecordIsRead(r: Record, keys: seq<string>)
    requires ValidRecord(r) && SortedKeysOf(r.args, keys)
    ensures ReadDraft(DraftText(DraftOf(r, keys))) == Some(DraftOf(r, keys))
  {
    forall p | p in DraftOf(r, keys).args
      ensures Bare(p.0)
    {
      var i :| 0 <= i < |keys| && p == (keys[i], r.args[keys[i]]);
      assert keys[i] in keys;
    }
    DraftIsRead(DraftOf(r, keys));
  }

  /** Why keys must be bare: a key that carries a whole line reads as two arguments. */
  lemma UnbareKeysCollide(val: string, more: string)
    ensures ArgLines([(Line("k", val) + "l", more)]) == ArgLines([("k", val), ("l", more)])
  {
    var a, b := [(Line("k", val) + "l", more)], [("k", val), ("l", more)];
    OneLine(a[0]);
    OneLine(b[1]);
    assert b[1..] == [b[1]] && ArgLines(b) == Line("k", val) + ArgLines(b[1..]);
    LineSplits(Line("k", val), "l", more);
  }

  lemma OneLine(p: (string, string))
    ensures ArgLines([p]) == Line(p.0, p.1)
  {
    assert [p][1..] == [];
  }

  lemma LineSplits(before: string, key: string, val: string)
    ensures Line(before + key, val) == before + Line(key, val)
  {
  }

  // ---- the encoder as it runs ------------------------------------------------------------

  /** What is left to write of a list of refs once i of them are out. */
  function RefsLeft(refs: seq<string>, i: nat): string
    requires i <= |refs|
  {
    if i == |refs| then "" else if i == 0 then RefsText(refs) else ", " + RefsText(refs[i..])
  }

  lemma RefsStep(refs: seq<string>, i: nat)
    requires i < |refs|
    ensures RefsLeft(refs, i) == (if i > 0 then ", " else "") + Quoted(refs[i]) + RefsLeft(refs, i + 1)
  {
    assert refs[i..][1..] == refs[i + 1..] && refs[0..] == refs;
    var t := if i + 1 < |refs| then ", " + RefsText(refs[i + 1..]) else "";
    assert RefsText(refs[i..]) == Quoted(refs[i]) + t;
    assert RefsLeft(refs, i + 1) == t;
  }

  method WriteRefs(b: string, refs: seq<string>) returns (r: string)
    ensures r == b + RefsText(refs)
  {
    r := b;
    assert refs == [] ==> RefsText(refs) == "";
    for i := 0 to |refs|
      invariant r + RefsLeft(refs, i) == b + RefsText(refs)
    {
      RefsStep(refs, i);
      var escaped := EscapeBasic(refs[i]);
      assert Quoted(refs[i]) == "\"" + escaped + "\"";
      r := WriteRef(r, escaped, i > 0, RefsLeft(refs, i + 1));
    }
  }

  method WriteRef(b: string, escaped: string, more: bool, ghost rest: string) returns (r: string)
    ensures r + rest == b + ((if more then ", " else "") + ("\"" + escaped + "\"") + rest)
  {
    r := b + (if more then ", " else "") + "\"" + escaped + "\"";
  }

  lemma ArgStep(args: map<string, string>, ks: seq<string>, i: nat)
    requires (forall k :: k in ks ==> k in args) && i < |ks|
    ensures ks[i] in args && ArgLines(PairsOf(args, ks)[i..]) == Line(ks[i], args[ks[i]]) + ArgLines(PairsOf(args, ks)[i + 1..])
  {
    var ps := PairsOf(args, ks);
    assert ks[i] in ks && ps[i..][0] == (ks[i], args[ks[i]]) && ps[i..][1..] == ps[i + 1..];
  }

  method WriteArgs(b: string, args: map<string, string>) returns (r: string, ghost keys: seq<string>)
    ensures SortedKeysOf(args, keys) && r == b + ArgsText(PairsOf(args, keys))
  {
    var ks := SortedKeys(args.Keys);
    keys := ks;
    r := if |args| > 0 then b + "\n[args]\n" else b;
    EmptyKeys(args, ks);
    for i := 0 to |ks|
      invariant r + ArgLines(PairsOf(args, ks)[i..]) == b + ArgsText(PairsOf(args, ks))
    {
      ArgStep(args, ks, i);
      Assoc(r, Line(ks[i], args[ks[i]]), ArgLines(PairsOf(args, ks)[i + 1..]));
      r := WriteLine(r, ks[i], args[ks[i]]);
    }
    assert PairsOf(args, ks)[|ks|..] == [];
  }

  lemma EmptyKeys(args: map<string, string>, ks: seq<string>)
    requires SortedKeysOf(args, ks)
    ensures |args| > 0 <==> ks != []
  {
    if ks != [] {
      assert ks[0] in ks;
    } else {
      assert args.Keys == {};
    }
  }

  lemma HeadInOrder(d: Draft, rest: string)
    ensures Head(d, rest) == "seq = " + Decimal(d.slot) + "\n" + Line("op_id", d.opID) + Line("prev_hash", d.prevHash) + Line("op_type", d.opType) + rest
  {
  }

  lemma TailInOrder(head: string, refs: string, actor: string, stamp: string, args: string)
    ensures head + "blob_refs = [" + refs + "]\n" + actor + "created_at = " + stamp + "\n" + args
         == head + ("blob_refs = [" + (refs + ("]" + ("\n" + (actor + ("created_at = " + (stamp + ("\n" + args))))))))
  {
  }

  method EncodeHead(r: Record) returns (b: string)
    ensures b == "seq = " + Decimal(r.slot) + "\n" + Line("op_id", r.opID) + Line("prev_hash", r.prevHash) + Line("op_type", r.opType)
  {
    b := "seq = " + Decimal(r.slot) + "\n";
    b := WriteLine(b, "op_id", r.opID);
    b := WriteLine(b, "prev_hash", r.prevHash);
    b := WriteLine(b, "op_type", r.opType);
  }

  method Encode(r: Record) returns (text: string)
    ensures IsEncoding(r, text)
  {
    var head := EncodeHead(r);
    var b := WriteRefs(head + "blob_refs = [", r.blobRefs);
    b := WriteLine(b + "]\n", "actor", r.actor);
    b := b + "created_at = " + Stamp(r.createdAt) + "\n";
    ghost var keys;
    text, keys := WriteArgs(b, r.args);
    ghost var d := DraftOf(r, keys);
    TailInOrder(head, RefsText(d.blobRefs), Line("actor", d.actor), Stamp(d.createdAt), ArgsText(d.args));
    HeadInOrder(d, TailText(d));
  }
}
