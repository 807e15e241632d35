/** Column vectors as RocksDB stores them (`stl.c`): `V:{T:1:N:count}:D:[a:b:...:z]`,
    kept as a C string, read back one element at a time by an iterator. */
module VectorCodec {
  import opened Basics
  import opened Decimal

  function Header(count: nat): string {
    "V:{" + "T:" + "1" + ":" + "N:" + Dec(count) + "}" + ":" + "D:["
  }

  function Join(values: seq<string>): string {
    if values == [] then []
    else if |values| == 1 then values[0]
    else values[0] + ":" + Join(values[1..])
  }

  function Serialize(values: seq<string>): string {
    Header(|values|) + Join(values) + "]"
  }

  /** What is written to RocksDB: `strlen` bytes and the terminator. */
  function Stored(values: seq<string>): string {
    CString(Serialize(values)) + [NUL]
  }

  // ---- reading ----

  /** The first c at or after i. */
  function Find(buf: string, i: nat, c: char): (r: Option<nat>)
    requires i <= |buf|
    ensures r.Some? ==> i <= r.value < |buf| && buf[r.value] == c && c !in buf[i..r.value]
    ensures r.None? <==> c !in buf[i..]
    decreases |buf| - i
  {
    if i == |buf| then None
    else if buf[i] == c then
      assert buf[i..][0] == c;
      Some(i)
    else
      var r := Find(buf, i + 1, c);
      assert buf[i..] == [buf[i]] + buf[i + 1..];
      assert r.Some? ==> buf[i..r.value] == [buf[i]] + buf[i + 1..r.value];
      r
  }

  /** `i` is the element the iterator stands at, `pos` where its text starts. */
  datatype Iter = Iter(buf: string, count: int, i: int, pos: nat)

  /** Skip a fixed word that ends in its only c. */
  function Expect(buf: string, i: nat, word: string): (r: Option<nat>)
    requires i <= |buf| && word != []
    ensures r.Some? ==> r.value <= |buf|
  {
    var e := Find(buf, i, word[|word| - 1]);
    if e.Some? && buf[i..e.value + 1] == word then Some(e.value + 1) else None
  }

  /** The text up to the next c. */
  function Token(buf: string, i: nat, c: char): (r: Option<string>)
    requires i <= |buf|
    ensures r.Some? ==> c !in r.value && i + |r.value| < |buf| && buf[i..i + |r.value|] == r.value
  {
    var e := Find(buf, i, c);
    if e.Some? then Some(buf[i..e.value]) else None
  }

  /** `makeColumnVectorIter`, as far as the iterator at the first element. */
  function Begin(buf: string): (r: Option<Iter>)
    ensures r.Some? ==> r.value.buf == buf && r.value.pos <= |buf|
  {
    var a := Expect(buf, 0, "V:{");
    if a.None? then None else
    var b := Expect(buf, a.value, "T:");
    if b.None? then None else
    var kind := Token(buf, b.value, ':');
    if kind.None? then None else
    var c := Expect(buf, b.value + |kind.value| + 1, "N:");
    if c.None? then None else
    var count := Token(buf, c.value, '}');
    if count.None? then None else
    var d := Find(buf, c.value + |count.value| + 1, 'D');
    if d.None? then None else
    var e := Expect(buf, d.value, "D:[");
    if e.None? then None else Some(Iter(buf, Atoi(count.value), 0, e.value))
  }

  function Delimiter(it: Iter): char {
    if it.i == it.count - 1 then ']' else ':'
  }

  /** `columnVectorIterGetNoCopy`; None is a read past the end of the buffer. */
  function Get(it: Iter): Option<string>
    requires it.pos <= |it.buf|
  {
    Token(it.buf, it.pos, Delimiter(it))
  }

  function Next(it: Iter): (r: Iter)
    requires it.pos <= |it.buf|
    ensures r.buf == it.buf && r.count == it.count && r.pos <= |r.buf|
  {
    if it.i == it.count - 1 then it
    else
      var e := Find(it.buf, it.pos, ':');
      it.(i := it.i + 1, pos := if e.Some? then e.value + 1 else |it.buf|)
  }

  function Advance(it: Iter, k: nat): (r: Iter)
    requires it.pos <= |it.buf|
    ensures r.buf == it.buf && r.count == it.count && r.pos <= |r.buf|
  {
    if k == 0 then it else Next(Advance(it, k - 1))
  }

  /** What the scan gets for element k of a stored vector. */
  function Read(buf: string, k: nat): Option<string> {
    var begin := Begin(buf);
    if begin.None? then None else Get(Advance(begin.value, k))
  }

  // ---- what survives the round trip ----

  predicate Plain(values: seq<string>) {
    forall k :: 0 <= k < |values| ==>
      NUL !in values[k] && (if k == |values| - 1 then ']' else ':') !in values[k]
  }

  lemma {:induction false} JoinPlain(values: seq<string>)
    requires forall k :: 0 <= k < |values| ==> NUL !in values[k]
    ensures NUL !in Join(values)
  {
    if |values| > 1 { JoinPlain(values[1..]); }
  }

  lemma HeaderPlain(count: nat)
    ensures NUL !in Header(count)
  {
    hide Dec;
    DecHasNo(count, NUL);
  }

  lemma StoredPlain(values: seq<string>)
    requires Plain(values)
    ensures Stored(values) == Header(|values|) + Join(values) + "]" + [NUL]
  {
    hide Join, Header, CString;
    JoinPlain(values);
    HeaderPlain(|values|);
    CStringOfPlain(Serialize(values));
  }

  lemma {:induction false} FindAfter(buf: string, i: nat, word: string, c: char)
    requires i + |word| < |buf| && buf[i..i + |word|] == word && c !in word && buf[i + |word|] == c
    ensures Find(buf, i, c) == Some(i + |word|)
    decreases |word|
  {
    if word != [] {
      assert buf[i] == word[0];
      assert buf[i + 1..i + 1 + |word[1..]|] == buf[i..i + |word|][1..];
      FindAfter(buf, i + 1, word[1..], c);
    }
  }

  lemma TokenAfter(buf: string, i: nat, word: string, c: char)
    requires i + |word| < |buf| && buf[i..i + |word|] == word && c !in word && buf[i + |word|] == c
    ensures Token(buf, i, c) == Some(word)
  {
    FindAfter(buf, i, word, c);
  }

  lemma ExpectAfter(buf: string, i: nat, word: string)
    requires word != [] && i + |word| <= |buf| && buf[i..i + |word|] == word
    requires word[|word| - 1] !in word[..|word| - 1]
    ensures Expect(buf, i, word) == Some(i + |word|)
  {
    var n := |word| - 1;
    assert buf[i..i + n] == buf[i..i + |word|][..n] == word[..n];
    assert buf[i + n] == buf[i..i + |word|][n];
    FindAfter(buf, i, word[..n], word[n]);
  }

  /** The header of a buffer, word by word. */
  lemma HeaderWords(count: nat, rest: string)
    ensures var buf, n := Header(count) + rest, Dec(count);
      && |Header(count)| == |n| + 14
      && buf[0..3] == "V:{" && buf[3..5] == "T:" && buf[5..6] == "1" && buf[6] == ':' && buf[7..9] == "N:"
      && buf[9..9 + |n|] == n && buf[9 + |n|] == '}'
      && buf[10 + |n|..11 + |n|] == ":" && buf[11 + |n|] == 'D' && buf[11 + |n|..14 + |n|] == "D:["
  {
    hide Dec;
    var buf, n := Header(count) + rest, Dec(count);
    assert buf == "V:{T:1:N:" + n + "}:D:[" + rest;
    assert buf[9 + |n|..] == "}:D:[" + rest;
  }

  lemma BeginOfStored(count: nat, rest: string)
    ensures Begin(Header(count) + rest) == Some(Iter(Header(count) + rest, count, 0, |Header(count)|))
  {
    hide Dec, Header, Expect, Token, Find, Atoi;
    var n := Dec(count);
    var buf := Header(count) + rest;
    HeaderWords(count, rest);
    ExpectAfter(buf, 0, "V:{");
    ExpectAfter(buf, 3, "T:");
    TokenAfter(buf, 5, "1", ':');
    ExpectAfter(buf, 7, "N:");
    DecHasNo(count, '}');
    TokenAfter(buf, 9, n, '}');
    FindAfter(buf, 10 + |n|, ":", 'D');
    ExpectAfter(buf, 11 + |n|, "D:[");
    AtoiOfDec(count, "");
    assert n + "" == n;
  }

  /** The iterator at the first element of a stored vector. */
  function Start(values: seq<string>): (it: Iter)
    ensures it.pos <= |it.buf| && it.buf == Stored(values) && it.i == 0 && it.count == |values|
  {
    StoredHeader(values);
    Iter(Stored(values), |values|, 0, |Header(|values|)|)
  }

  /** Where the text of element k starts, counted from the first. */
  function Offset(values: seq<string>, k: nat): nat
    requires k <= |values|
  {
    if k == 0 then 0 else Offset(values, k - 1) + |values[k - 1]| + 1
  }

  lemma {:induction false} OffsetTail(values: seq<string>, k: nat)
    requires 0 < k <= |values|
    ensures Offset(values, k) == |values[0]| + 1 + Offset(values[1..], k - 1)
  {
    if k > 1 { OffsetTail(values, k - 1); }
  }

  lemma OffsetZero(values: seq<string>)
    ensures Offset(values, 0) == 0
  {
  }

  lemma {:induction false} JoinAt(values: seq<string>, k: nat)
    requires k < |values|
    ensures Offset(values, k) + |values[k]| <= |Join(values)|
    ensures Join(values)[Offset(values, k)..Offset(values, k) + |values[k]|] == values[k]
    ensures k == |values| - 1 ==> Offset(values, k) + |values[k]| == |Join(values)|
    ensures k < |values| - 1 ==>
      Offset(values, k) + |values[k]| < |Join(values)| && Join(values)[Offset(values, k) + |values[k]|] == ':'
  {
    hide Offset;
    OffsetZero(values);
    if |values| > 1 {
      var s := Join(values);
      assert s == values[0] + (":" + Join(values[1..]));
      if k == 0 {
        assert s[..|values[0]|] == values[0];
      } else {
        JoinAt(values[1..], k - 1);
        OffsetTail(values, k);
        Shifted(values[0] + ":", Join(values[1..]), Offset(values[1..], k - 1), |values[k]|);
      }
    }
  }

  lemma Shifted(a: string, b: string, p: nat, n: nat)
    requires p + n <= |b|
    ensures (a + b)[|a| + p..|a| + p + n] == b[p..p + n]
    ensures p + n < |b| ==> (a + b)[|a| + p + n] == b[p + n]
  {
  }

  lemma StoredAt(values: seq<string>, k: nat)
    requires Plain(values) && k < |values|
    ensures var p := |Header(|values|)| + Offset(values, k);
      && p + |values[k]| < |Stored(values)| && Stored(values)[p..p + |values[k]|] == values[k]
      && Stored(values)[p + |values[k]|] == if k == |values| - 1 then ']' else ':'
  {
    hide Join, Header, Stored;
    StoredPlain(values);
    JoinAt(values, k);
    var h, j := Header(|values|), Join(values);
    var o := Offset(values, k);
    assert Stored(values)[|h|..|h| + |j|] == j;
    assert Stored(values)[|h| + o..|h| + o + |values[k]|] == j[o..o + |values[k]|];
  }

  lemma AdvanceStep(it: Iter, k: nat)
    requires it.pos <= |it.buf|
    ensures Advance(it, 0) == it && Advance(it, k + 1) == Next(Advance(it, k))
  {
  }

  function IterAt(values: seq<string>, k: nat): (it: Iter)
    requires k <= |values|
    ensures it.buf == Stored(values)
  {
    Iter(Stored(values), |values|, k, |Header(|values|)| + Offset(values, k))
  }

  lemma NextAt(values: seq<string>, k: nat)
    requires Plain(values) && k < |values| - 1
    ensures IterAt(values, k).pos <= |Stored(values)| && Next(IterAt(values, k)) == IterAt(values, k + 1)
  {
    hide Stored, Header, Find, Plain;
    StoredAt(values, k);
    PlainAt(values, k);
    FindAfter(Stored(values), IterAt(values, k).pos, values[k], ':');
  }

  lemma {:induction false} AdvanceTo(values: seq<string>, k: nat)
    requires Plain(values) && k < |values|
    ensures Advance(Start(values), k) == IterAt(values, k)
  {
    hide Stored, Header, Find, Plain, Advance, Next;
    if k == 0 {
      AdvanceStep(Start(values), 0);
      OffsetZero(values);
    } else {
      AdvanceTo(values, k - 1);
      AdvanceStep(Start(values), k - 1);
      NextAt(values, k - 1);
    }
  }

  lemma PlainAt(values: seq<string>, k: nat)
    requires Plain(values) && k < |values|
    ensures (if k == |values| - 1 then ']' else ':') !in values[k]
  {
  }

  lemma StoredHeader(values: seq<string>)
    ensures exists rest :: Stored(values) == Header(|values|) + rest
  {
    DecHasNo(|values|, NUL);
    CStringAppend(Header(|values|), Join(values) + "]");
    assert Serialize(values) == Header(|values|) + (Join(values) + "]");
    assert Stored(values) == Header(|values|) + (CString(Join(values) + "]") + [NUL]);
  }

  lemma {:induction false} CStringAppend(a: string, b: string)
    requires NUL !in a
    ensures CString(a + b) == a + CString(b)
  {
    if a == [] {
      assert a + b == b;
    } else {
      assert (a + b)[1..] == a[1..] + b;
      CStringAppend(a[1..], b);
    }
  }

  lemma ReadIs(values: seq<string>, k: nat)
    ensures Read(Stored(values), k) == Get(Advance(Start(values), k))
  {
    hide Stored, Header, Begin, Get, Advance;
    StoredHeader(values);
    var rest :| Stored(values) == Header(|values|) + rest;
    BeginOfStored(|values|, rest);
  }

  /** Element k is read back as it was, when nothing in the vector looks like a delimiter. */
  lemma ReadPlain(values: seq<string>, k: nat)
    requires Plain(values) && k < |values|
    ensures Read(Stored(values), k) == Some(values[k])
  {
    hide Stored, Header, Read, Advance, Token, Plain, Start;
    ReadIs(values, k);
    AdvanceTo(values, k);
    StoredAt(values, k);
    PlainAt(values, k);
    TokenAfter(Stored(values), |Header(|values|)| + Offset(values, k), values[k],
               if k == |values| - 1 then ']' else ':');
  }

  lemma {:induction false} AdvanceIndex(it: Iter, k: nat)
    requires it.pos <= |it.buf| && it.i == 0 && k < it.count
    ensures Advance(it, k).i == k
  {
    if k > 0 { AdvanceIndex(it, k - 1); }
  }

  /** Whatever is read holds neither its delimiter nor NUL. */
  lemma ReadIsPlain(values: seq<string>, k: nat)
    requires k < |values| && Read(Stored(values), k).Some?
    ensures var s := Read(Stored(values), k).value;
      NUL !in s && (if k == |values| - 1 then ']' else ':') !in s
  {
    hide Read, Advance, Token, CString, Serialize;
    ReadIs(values, k);
    AdvanceIndex(Start(values), k);
    var at := Advance(Start(values), k);
    var s := Get(at).value;
    var c := CString(Serialize(values));
    TokenBefore(c, at.pos, Delimiter(at));
  }

  /** A token ended by something other than NUL does not reach the terminator. */
  lemma TokenBefore(c: string, i: nat, delimiter: char)
    requires NUL !in c && delimiter != NUL && i <= |c + [NUL]|
    ensures var r := Token(c + [NUL], i, delimiter); r.Some? ==> NUL !in r.value
  {
    var buf := c + [NUL];
    var r := Token(buf, i, delimiter);
    if r.Some? {
      var e := Find(buf, i, delimiter).value;
      assert e < |c|;
      assert r.value == c[i..e];
    }
  }

  /** The codec loses nothing exactly on plain vectors. */
  lemma CodecIsExactIff(values: seq<string>)
    ensures (forall k :: 0 <= k < |values| ==> Read(Stored(values), k) == Some(values[k])) <==> Plain(values)
  {
    if Plain(values) {
      forall k | 0 <= k < |values| ensures Read(Stored(values), k) == Some(values[k]) {
        ReadPlain(values, k);
      }
    }
    if forall k :: 0 <= k < |values| ==> Read(Stored(values), k) == Some(values[k]) {
      forall k | 0 <= k < |values|
        ensures NUL !in values[k] && (if k == |values| - 1 then ']' else ':') !in values[k]
      {
        ReadIsPlain(values, k);
      }
    }
  }

  /** A time of day does not survive in the middle of a vector. */
  lemma ColonIsLost()
    ensures Read(Stored(["10:30", "x"]), 0) != Some("10:30")
  {
    hide Read, Stored;
    var values := ["10:30", "x"];
    assert values[0][2] == ':';
    if Read(Stored(values), 0).Some? { ReadIsPlain(values, 0); }
  }
}
