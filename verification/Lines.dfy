/** The journal file format: one record a line, and what a reader makes of any bytes at all. */
module Lines {
  import opened Model

  const NEWLINE: Byte := 10

  // The record codec, of which only this much is assumed: no newline inside a line, and decoding undoes encoding.
  datatype Codec = Codec(enc: Record -> seq<Byte>, dec: seq<Byte> -> Option<Record>) {
    ghost predicate Ok() { forall r :: NEWLINE !in enc(r) && dec(enc(r)) == Some(r) }

    function Line(r: Record): seq<Byte> { enc(r) + [NEWLINE] }
  }

  datatype Parsed = Parsed(records: seq<Record>, good: nat)

  // The index of the first newline, or the length if there is none.
  function FirstNewline(bs: seq<Byte>): (e: nat)
    ensures e <= |bs|
    ensures NEWLINE !in bs[..e]
    ensures e < |bs| ==> bs[e] == NEWLINE
  {
    if bs == [] || bs[0] == NEWLINE then 0
    else
      var e := 1 + FirstNewline(bs[1..]);
      assert bs[..e] == [bs[0]] + bs[1..][..e - 1];
      e
  }

  // Reads line by line and stops at the first line that is unfinished or does not decode.
  function Parse(c: Codec, bs: seq<Byte>): (p: Parsed)
    ensures p.good <= |bs|
    decreases |bs|
  {
    var e := FirstNewline(bs);
    if e == |bs| || c.dec(bs[..e]).None? then Parsed([], 0)
    else
      var rest := Parse(c, bs[e + 1..]);
      Parsed([c.dec(bs[..e]).value] + rest.records, e + 1 + rest.good)
  }

  function Records(c: Codec, bs: seq<Byte>): seq<Record> { Parse(c, bs).records }

  // Every byte belongs to a well-formed line.
  ghost predicate Clean(c: Codec, bs: seq<Byte>) { Parse(c, bs).good == |bs| }

  lemma {:induction false} NewlineAt(bs: seq<Byte>, e: nat)
    requires e < |bs| && bs[e] == NEWLINE && NEWLINE !in bs[..e]
    ensures FirstNewline(bs) == e
  {
    if e == 0 {
    } else {
      assert bs[..e] == [bs[0]] + bs[1..][..e - 1];
      NewlineAt(bs[1..], e - 1);
    }
  }

  lemma ParseStep(c: Codec, bs: seq<Byte>, e: nat)
    requires e < |bs| && bs[e] == NEWLINE && NEWLINE !in bs[..e] && c.dec(bs[..e]).Some?
    ensures var tail := bs[e + 1..];
            Parse(c, bs) == Parsed([c.dec(bs[..e]).value] + Records(c, tail), e + 1 + Parse(c, tail).good)
  {
    NewlineAt(bs, e);
  }

  // ---- What Parse computes ----

  function Joined(lines: seq<seq<Byte>>): seq<Byte> {
    if lines == [] then [] else lines[0] + [NEWLINE] + Joined(lines[1..])
  }

  /** The bytes are well-formed lines, which decode to these records. */
  ghost predicate Spells(c: Codec, lines: seq<seq<Byte>>, bs: seq<Byte>, rs: seq<Record>) {
    && Joined(lines) == bs
    && |lines| == |rs|
    && (forall i | 0 <= i < |lines| :: NEWLINE !in lines[i] && c.dec(lines[i]) == Some(rs[i]))
  }

  lemma SpellsMore(c: Codec, lines: seq<seq<Byte>>, bs: seq<Byte>, e: nat, good: nat, rs: seq<Record>)
    requires e + 1 + good <= |bs| && bs[e] == NEWLINE && NEWLINE !in bs[..e] && c.dec(bs[..e]).Some?
    requires Spells(c, lines, bs[e + 1..][..good], rs)
    ensures Spells(c, [bs[..e]] + lines, bs[..e + 1 + good], [c.dec(bs[..e]).value] + rs)
  {
    assert ([bs[..e]] + lines)[1..] == lines;
    assert bs[..e + 1 + good] == bs[..e] + [NEWLINE] + bs[e + 1..][..good];
  }

  /** What is read is spelled by whole lines of the file... */
  lemma {:induction false} ParseIsSpelled(c: Codec, bs: seq<Byte>) returns (lines: seq<seq<Byte>>)
    ensures Spells(c, lines, bs[..Parse(c, bs).good], Records(c, bs))
    decreases |bs|
  {
    var e := FirstNewline(bs);
    if e == |bs| || c.dec(bs[..e]).None? {
      lines := [];
    } else {
      var tail := bs[e + 1..];
      lines := ParseIsSpelled(c, tail);
      SpellsMore(c, lines, bs, e, Parse(c, tail).good, Records(c, tail));
      lines := [bs[..e]] + lines;
    }
  }

  // The first of some lines at the head of the bytes, and where the others are.
  lemma FirstOfLines(bs: seq<Byte>, line: seq<Byte>, rest: seq<Byte>, m: nat)
    requires m <= |bs| && bs[..m] == line + [NEWLINE] + rest
    ensures |line| + 1 <= m && bs[..|line|] == line && bs[|line|] == NEWLINE
    ensures bs[|line| + 1..][..m - |line| - 1] == rest
  {
    assert bs[..|line|] == bs[..m][..|line|] && bs[|line|] == bs[..m][|line|];
    assert bs[|line| + 1..][..m - |line| - 1] == bs[..m][|line| + 1..];
  }

  lemma PrefixCons(r: Record, a: seq<Record>, b: seq<Record>)
    requires a <= b
    ensures [r] + a <= [r] + b
  {}

  /** ... and nothing the file begins with is spelled by more of them. */
  lemma {:induction false} ParseIsLongest(c: Codec, bs: seq<Byte>, lines: seq<seq<Byte>>, m: nat, rs: seq<Record>)
    requires m <= |bs| && Spells(c, lines, bs[..m], rs)
    ensures m <= Parse(c, bs).good && rs <= Records(c, bs)
    decreases |lines|
  {
    if lines == [] {
    } else {
      var e := |lines[0]|;
      FirstOfLines(bs, lines[0], Joined(lines[1..]), m);
      var tail := bs[e + 1..];
      ParseIsLongest(c, tail, lines[1..], m - e - 1, rs[1..]);
      ParseStep(c, bs, e);
      PrefixCons(rs[0], rs[1..], Records(c, tail));
      assert rs == [rs[0]] + rs[1..];
    }
  }

  // ---- Appending and cutting ----

  lemma ParseFirst(c: Codec, line: seq<Byte>, rest: seq<Byte>)
    requires NEWLINE !in line && c.dec(line).Some?
    ensures Parse(c, line + [NEWLINE] + rest) ==
            Parsed([c.dec(line).value] + Records(c, rest), |line| + 1 + Parse(c, rest).good)
  {
    var bs := line + [NEWLINE] + rest;
    assert bs[..|line|] == line && bs[|line| + 1..] == rest;
    ParseStep(c, bs, |line|);
  }

  lemma {:induction false} ParseAppend(c: Codec, a: seq<Byte>, b: seq<Byte>)
    requires Clean(c, a)
    ensures Parse(c, a + b) == Parsed(Records(c, a) + Records(c, b), |a| + Parse(c, b).good)
    decreases |a|
  {
    if a == [] {
      assert a + b == b;
    } else {
      var e := FirstNewline(a);
      var line, tail := a[..e], a[e + 1..];
      assert a == line + [NEWLINE] + tail;
      assert a + b == line + [NEWLINE] + (tail + b);
      ParseFirst(c, line, tail);
      ParseFirst(c, line, tail + b);
      ParseAppend(c, tail, b);
      Associative([c.dec(line).value], Records(c, tail), Records(c, b));
    }
  }

  lemma Associative(x: seq<Record>, y: seq<Record>, z: seq<Record>)
    ensures x + (y + z) == (x + y) + z
  {}

  lemma ParseLine(c: Codec, r: Record)
    requires c.Ok()
    ensures Parse(c, c.Line(r)) == Parsed([r], |c.Line(r)|)
  {
    var line := c.Line(r);
    assert line[..|c.enc(r)|] == c.enc(r);
    NewlineAt(line, |c.enc(r)|);
    assert line[|c.enc(r)| + 1..] == [];
  }

  /** Appending a record's line to clean bytes appends the record. */
  lemma AppendLine(c: Codec, bs: seq<Byte>, r: Record)
    requires c.Ok() && Clean(c, bs)
    ensures Clean(c, bs + c.Line(r)) && Records(c, bs + c.Line(r)) == Records(c, bs) + [r]
  {
    ParseAppend(c, bs, c.Line(r));
    ParseLine(c, r);
  }

  /** The longer the piece of a file that survives, the more of the same records are read from it. */
  lemma CutsAreOrdered(c: Codec, bs: seq<Byte>, j: nat, k: nat)
    requires j <= k <= |bs|
    ensures Records(c, bs[..j]) <= Records(c, bs[..k])
  {
    var read := Parse(c, bs[..j]);
    var lines := ParseIsSpelled(c, bs[..j]);
    assert bs[..j][..read.good] == bs[..k][..read.good];
    ParseIsLongest(c, bs[..k], lines, read.good, read.records);
  }

  // Some piece of the file is read as its first k records.
  lemma {:induction false} EveryPrefixIsRead(c: Codec, bs: seq<Byte>, k: nat) returns (m: nat)
    requires k <= |Records(c, bs)|
    ensures m <= |bs| && Records(c, bs[..m]) == Records(c, bs)[..k]
    decreases |bs|
  {
    if k == 0 {
      m := 0;
    } else {
      var e := FirstNewline(bs);
      m := EveryPrefixIsRead(c, bs[e + 1..], k - 1);
      LineBeforePiece(c, bs, e, m);
      TakeMore(c.dec(bs[..e]).value, Records(c, bs[e + 1..]), k);
      m := e + 1 + m;
    }
  }

  lemma LineBeforePiece(c: Codec, bs: seq<Byte>, e: nat, m: nat)
    requires e + 1 + m <= |bs| && bs[e] == NEWLINE && NEWLINE !in bs[..e] && c.dec(bs[..e]).Some?
    ensures Records(c, bs[..e + 1 + m]) == [c.dec(bs[..e]).value] + Records(c, bs[e + 1..][..m])
  {
    assert bs[..e + 1 + m] == bs[..e] + [NEWLINE] + bs[e + 1..][..m];
    ParseFirst(c, bs[..e], bs[e + 1..][..m]);
  }

  lemma TakeMore(r: Record, rs: seq<Record>, k: nat)
    requires 0 < k <= |rs| + 1
    ensures ([r] + rs)[..k] == [r] + rs[..k - 1]
  {}

  /** Cutting a file to what was read from it loses nothing and leaves it clean, so a second reading changes nothing. */
  lemma RepairIsIdempotent(c: Codec, bs: seq<Byte>)
    ensures Parse(c, bs[..Parse(c, bs).good]) == Parse(c, bs)
  {
    var read := Parse(c, bs);
    var cut := bs[..read.good];
    var lines := ParseIsSpelled(c, bs);
    assert cut[..read.good] == cut;
    ParseIsLongest(c, cut, lines, read.good, read.records);
    var again := ParseIsSpelled(c, cut);
    ParseIsLongest(c, bs, again, read.good, Records(c, cut));
  }

  // ---- Files written by encoding alone ----

  function Encoded(c: Codec, rs: seq<Record>): seq<Byte> {
    if rs == [] then [] else Encoded(c, rs[..|rs| - 1]) + c.Line(rs[|rs| - 1])
  }

  lemma {:induction false} EncodedIsRead(c: Codec, rs: seq<Record>)
    requires c.Ok()
    ensures Clean(c, Encoded(c, rs)) && Records(c, Encoded(c, rs)) == rs
  {
    if rs == [] {
    } else {
      EncodedIsRead(c, rs[..|rs| - 1]);
      AppendLine(c, Encoded(c, rs[..|rs| - 1]), rs[|rs| - 1]);
    }
  }

  lemma {:induction false} EncodedPrefix(c: Codec, rs: seq<Record>, n: nat)
    requires n <= |rs|
    ensures |Encoded(c, rs[..n])| <= |Encoded(c, rs)| && Encoded(c, rs)[..|Encoded(c, rs[..n])|] == Encoded(c, rs[..n])
  {
    if n == |rs| {
      assert rs[..n] == rs;
    } else {
      var init := rs[..|rs| - 1];
      EncodedPrefix(c, init, n);
      assert init[..n] == rs[..n];
      var k := |Encoded(c, rs[..n])|;
      assert Encoded(c, rs)[..k] == Encoded(c, init)[..k];
    }
  }

  // No proper part of a line is read as a record.
  lemma PartOfLine(c: Codec, r: Record, k: nat)
    requires c.Ok() && k < |c.Line(r)|
    ensures Parse(c, c.Line(r)[..k]) == Parsed([], 0)
  {
    var part := c.Line(r)[..k];
    assert part == c.enc(r)[..k];
    assert FirstNewline(part) == |part|;
  }

  /** Cut anywhere, a journal gives back exactly the records that were written whole. */
  lemma WholeRecordsSurvive(c: Codec, rs: seq<Record>, b: nat, n: nat)
    requires c.Ok() && n <= |rs| && b <= |Encoded(c, rs)|
    requires |Encoded(c, rs[..n])| <= b
    requires n < |rs| ==> b < |Encoded(c, rs[..n + 1])|
    ensures Records(c, Encoded(c, rs)[..b]) == rs[..n]
  {
    var bs, whole := Encoded(c, rs), Encoded(c, rs[..n]);
    EncodedPrefix(c, rs, n);
    EncodedIsRead(c, rs[..n]);
    if n == |rs| {
      assert rs[..n] == rs && bs[..b] == bs;
    } else {
      EncodedPrefix(c, rs, n + 1);
      assert rs[..n + 1][..n] == rs[..n];
      var line, k := c.Line(rs[n]), b - |whole|;
      assert Encoded(c, rs[..n + 1]) == whole + line;
      assert bs[..b] == bs[..|whole| + |line|][..b] == whole + line[..k];
      PartOfLine(c, rs[n], k);
      ParseAppend(c, whole, line[..k]);
    }
  }
}
