/** The parent's side in place: the log buffer, and the rewrite buffer as a list of
    fixed-size blocks.  `Pending` is the content of that list; the methods do to the
    server what the steps of module AofRewrite do. */
module AofServer {
  import opened AofRewrite

  /** `AOF_RW_BUF_BLOCK_SIZE`. */
  const BLOCK_SIZE: nat := 10_485_760

  datatype Block = Block(buf: string, used: nat, free: nat)
  {
    predicate Valid() {
      |buf| == BLOCK_SIZE && used + free == BLOCK_SIZE
    }

    function Content(): string
      requires Valid()
    {
      buf[..used]
    }
  }

  predicate AllValid(blocks: seq<Block>) {
    forall i :: 0 <= i < |blocks| ==> blocks[i].Valid()
  }

  function Contents(blocks: seq<Block>): string
    requires AllValid(blocks)
  {
    if blocks == [] then "" else blocks[0].Content() + Contents(blocks[1..])
  }

  lemma {:induction false} ContentsSnoc(blocks: seq<Block>, b: Block)
    requires AllValid(blocks) && b.Valid()
    ensures AllValid(blocks + [b]) && Contents(blocks + [b]) == Contents(blocks) + b.Content()
  {
    if blocks == [] {
      assert blocks + [b] == [b];
    } else {
      assert (blocks + [b])[1..] == blocks[1..] + [b];
      ContentsSnoc(blocks[1..], b);
    }
  }

  /** `memcpy` of s to the free part of a block. */
  function Fill(b: Block, s: string): (r: Block)
    requires b.Valid() && |s| <= b.free
    ensures r.Valid() && r.Content() == b.Content() + s
  {
    var r := Block(b.buf[..b.used] + s + b.buf[b.used + |s|..], b.used + |s|, b.free - |s|);
    assert r.buf[..r.used] == b.buf[..b.used] + s;
    r
  }

  /** `memmove` of what is left once the first n bytes are written. */
  function Consume(b: Block, n: nat): (r: Block)
    requires b.Valid() && n <= b.used
    ensures r.Valid() && r.Content() == b.Content()[n..]
  {
    var r := Block(b.buf[n..b.used] + b.buf[b.used - n..], b.used - n, b.free + n);
    assert r.buf[..r.used] == b.buf[..b.used][n..];
    r
  }

  class Server {
    var on: bool
    var buf: string
    var file: string
    var size: nat
    var blocks: seq<Block>
    var rewriting: bool
    var stop: bool
    var data: string

    ghost predicate Valid()
      reads this
    {
      AllValid(blocks)
    }

    ghost function Pending(): string
      requires Valid()
      reads this
    {
      Contents(blocks)
    }

    /** The list as a seq: all but the last block. */
    static lemma LastBlock(blocks: seq<Block>)
      requires AllValid(blocks) && blocks != []
      ensures var n := |blocks| - 1; Contents(blocks) == Contents(blocks[..n]) + blocks[n].Content()
    {
      var n := |blocks| - 1;
      ContentsSnoc(blocks[..n], blocks[n]);
      assert blocks[..n] + [blocks[n]] == blocks;
    }

    method ReplaceLast(b: Block)
      requires Valid() && blocks != [] && b.Valid()
      modifies this`blocks
      ensures Valid() && |blocks| == old(|blocks|) && blocks[|blocks| - 1] == b
      ensures old(Pending()) == Contents(old(blocks)[..|blocks| - 1]) + old(blocks)[|blocks| - 1].Content()
      ensures Pending() == Contents(old(blocks)[..|blocks| - 1]) + b.Content()
    {
      var n := |blocks| - 1;
      LastBlock(blocks);
      ContentsSnoc(blocks[..n], b);
      blocks := blocks[..n] + [b];
    }

    /** `aofRewriteBufferAppend`. */
    method Append(s: string)
      requires Valid()
      modifies this`blocks
      ensures Valid() && Pending() == old(Pending()) + s
    {
      hide Contents, Fill, Block.Content;
      var rest := s;
      assert old(Pending()) + s == old(Pending()) + rest;
      while rest != ""
        invariant Valid() && Pending() + rest == old(Pending()) + s
        decreases |rest|, if blocks == [] || blocks[|blocks| - 1].free == 0 then 1 else 0
      {
        if blocks != [] && blocks[|blocks| - 1].free > 0 {
          var last := blocks[|blocks| - 1];
          var n := if last.free < |rest| then last.free else |rest|;
          ReplaceLast(Fill(last, rest[..n]));
          assert rest == rest[..n] + rest[n..];
          rest := rest[n..];
        } else {
          NewBlock();
        }
      }
    }

    method NewBlock()
      requires Valid()
      modifies this`blocks
      ensures Valid() && Pending() == old(Pending()) && blocks != [] && blocks[|blocks| - 1].free == BLOCK_SIZE
    {
      var b := Block(seq(BLOCK_SIZE, _ => '\0'), 0, BLOCK_SIZE);
      ContentsSnoc(blocks, b);
      assert b.Content() == "";
      assert Contents(blocks) + "" == Contents(blocks);
      blocks := blocks + [b];
    }

    /** `feedAppendOnlyFile`, once the command is encoded. */
    method Feed(bytes: string)
      requires Valid()
      modifies this`buf, this`blocks
      ensures Valid() && buf == old(buf) + (if on then bytes else "")
      ensures Pending() == old(Pending()) + (if rewriting then bytes else "")
    {
      hide Contents;
      assert buf + "" == buf && Pending() + "" == Pending();
      if on { buf := buf + bytes; }
      if rewriting { Append(bytes); }
    }

    static lemma FirstBlock(blocks: seq<Block>)
      requires AllValid(blocks) && blocks != []
      ensures Contents(blocks) == blocks[0].Content() + Contents(blocks[1..])
      ensures |blocks[0].Content()| == blocks[0].used
    {
    }

    /** One successful `write` of m bytes from the first block. */
    method SendFirst(m: nat)
      requires Valid() && blocks != [] && m <= blocks[0].used
      modifies this`blocks, this`data
      ensures Valid() && |blocks| == old(|blocks|) && blocks[0].used == old(blocks)[0].used - m
      ensures blocks[1..] == old(blocks)[1..] && m <= |old(Pending())|
      ensures data + Pending() == old(data) + old(Pending()) && data == old(data) + old(Pending())[..m]
    {
      hide Contents, Consume, Block.Content;
      FirstBlock(blocks);
      var c, rest := blocks[0].Content(), blocks[1..];
      assert AllValid(rest);
      ghost var tail := Contents(rest);
      assert (c + tail)[..m] == c[..m];
      assert data + (c + tail) == (data + c[..m]) + (c[m..] + tail) by { assert c == c[..m] + c[m..]; }
      data := data + c[..m];
      blocks := [Consume(blocks[0], m)] + rest;
      assert blocks[1..] == rest;
      FirstBlock(blocks);
    }

    method DropFirst()
      requires Valid() && blocks != [] && blocks[0].used == 0
      modifies this`blocks
      ensures Valid() && Pending() == old(Pending()) && blocks == old(blocks)[1..]
    {
      hide Contents, Block.Content;
      FirstBlock(blocks);
      assert "" + Contents(blocks[1..]) == Contents(blocks[1..]);
      blocks := blocks[1..];
    }

    /** `aofChildWriteDiffData`: `results` are what `write` returns, call after call.
        Bytes leave the buffer and enter the pipe in order, and none once the child
        asked to stop. */
    method WriteDiffData(results: seq<int>)
      requires Valid()
      modifies this`blocks, this`data
      ensures Valid() && data + Pending() == old(data) + old(Pending())
      ensures old(data) <= data && |data| == |old(data)| + if stop then 0 else Drained(Sizes(old(blocks)), results)
    {
      hide Contents;
      var calls := 0;
      assert results[0..] == results;
      while !stop && blocks != []
        invariant Valid() && data + Pending() == old(data) + old(Pending()) && old(data) <= data
        invariant calls <= |results| && (stop ==> data == old(data))
        invariant !stop ==>
          |data| + Drained(Sizes(blocks), results[calls..]) == |old(data)| + Drained(Sizes(old(blocks)), results)
        decreases |results| - calls, |blocks|
      {
        if blocks[0].used > 0 {
          if calls == |results| { return; }
          var n := results[calls];
          ghost var sizes := Sizes(blocks);
          assert Sizes(blocks[1..]) == sizes[1..];
          assert results[calls..][1..] == results[calls + 1..] && results[calls..][0] == n;
          calls := calls + 1;
          if n <= 0 { return; }
          SendFirst(if n < blocks[0].used then n else blocks[0].used);
          SizesOf(blocks, sizes);
        }
        if blocks[0].used == 0 {
          ghost var sizes := Sizes(blocks);
          DropFirst();
          assert Sizes(blocks) == sizes[1..];
          assert Drained(sizes, results[calls..]) == Drained(sizes[1..], results[calls..]);
        }
      }
    }

    /** `aofRewriteBufferWrite`: all of the buffer, block by block, or an error as soon
        as one `write` falls short. */
    method BufferWrite(results: seq<int>) returns (count: int, out: string)
      requires Valid()
      ensures count != -1 ==> out == Pending() && count == |out|
      ensures count == -1 <==> exists k :: 0 <= k < |blocks| && FallsShort(blocks[k], results, k)
    {
      hide Contents, Block.Content;
      count, out := 0, "";
      assert blocks[..0] == [] && Contents([]) == "" by { NoBlocks(); }
      for i := 0 to |blocks|
        invariant AllValid(blocks[..i]) && out == Contents(blocks[..i]) && count == |out|
        invariant forall k :: 0 <= k < i ==> !FallsShort(blocks[k], results, k)
      {
        var b := blocks[i];
        ContentsSnoc(blocks[..i], b);
        assert blocks[..i] + [b] == blocks[..i + 1];
        FirstBlock([b]);
        if b.used > 0 {
          if i >= |results| || results[i] != b.used {
            assert FallsShort(blocks[i], results, i);
            return -1, out;
          }
          out := out + b.Content();
          count := count + b.used;
        } else {
          assert b.Content() == "";
          assert out + "" == out;
        }
      }
      assert blocks[..|blocks|] == blocks;
    }

    static lemma NoBlocks()
      ensures Contents([]) == ""
    {
    }

    /** `flushAppendOnlyFile` under a policy that survives a failed write: `written` is
        what `write` returns, `truncated` whether `ftruncate` succeeds. */
    method Flush(written: int, truncated: bool, ghost w: Aof)
      requires -1 <= written <= |buf| && w.buf == buf && w.file == file && w.size == size
      modifies this`buf, this`file, this`size
      ensures var r := FlushStep(w, written, truncated); buf == r.buf && file == r.file && size == r.size
    {
      hide Contents, AllValid;
      if |buf| == 0 { return; }
      var n := written;
      if n > 0 { file := file + buf[..n]; }
      assert n == |buf| ==> buf[..n] == buf;
      assert n == 0 ==> file == w.file + w.buf[..0];
      if n != |buf| {
        if n != -1 {
          if truncated {
            if size <= |file| { file := file[..size]; }
            n := -1;
          }
        }
        if n > 0 {
          size := size + n;
          buf := buf[n..];
        }
        return;
      }
      size := size + n;
      buf := "";
    }
  }

  function Sizes(blocks: seq<Block>): (r: seq<nat>) {
    seq(|blocks|, i requires 0 <= i < |blocks| => blocks[i].used)
  }

  lemma SizesOf(blocks: seq<Block>, sizes: seq<nat>)
    requires blocks != [] && |sizes| == |blocks| && Sizes(blocks[1..]) == sizes[1..]
    ensures Sizes(blocks) == [blocks[0].used] + sizes[1..]
  {
    assert forall i :: 0 < i < |blocks| ==> Sizes(blocks[1..])[i - 1] == blocks[i].used;
  }

  /** How many bytes leave blocks of these sizes when `write` returns these results: each
      call takes from the first block with anything in it, until one fails. */
  function Drained(sizes: seq<nat>, results: seq<int>): nat
    decreases |results|, |sizes|
  {
    if sizes == [] then 0
    else if sizes[0] == 0 then Drained(sizes[1..], results)
    else if results == [] || results[0] <= 0 then 0
    else
      var n := Least(results[0], sizes[0]);
      n + Drained([sizes[0] - n] + sizes[1..], results[1..])
  }

  function Total(sizes: seq<nat>): nat {
    if sizes == [] then 0 else sizes[0] + Total(sizes[1..])
  }

  /** One complete write per block empties them all. */
  lemma {:induction false} CompleteWritesDrain(sizes: seq<nat>, results: seq<int>)
    requires |results| >= |sizes|
    requires forall i, j :: 0 <= i < |results| && 0 <= j < |sizes| ==> results[i] >= sizes[j]
    ensures Drained(sizes, results) == Total(sizes)
    decreases |sizes|
  {
    if sizes != [] {
      if sizes[0] == 0 {
        CompleteWritesDrain(sizes[1..], results);
      } else {
        CompleteWritesDrain(sizes[1..], results[1..]);
        assert ([0] + sizes[1..])[1..] == sizes[1..];
      }
    }
  }

  /** The write of block k, if there is anything to write, is not complete. */
  predicate FallsShort(b: Block, results: seq<int>, k: nat) {
    b.used > 0 && (k >= |results| || results[k] != b.used)
  }

  function Least(a: int, b: int): int {
    if a < b then a else b
  }

  /** The sum of the results before the first that is not positive. */
  function Offered(results: seq<int>): nat {
    if results == [] || results[0] <= 0 then 0 else results[0] + Offered(results[1..])
  }

  /** The read that ends the loop finds the pipe empty. */
  predicate EndsEmpty(pipe: string, results: seq<int>)
    decreases |results|
  {
    results != [] && if results[0] <= 0 then pipe == "" else EndsEmpty(pipe[Least(results[0], |pipe|)..], results[1..])
  }

  /** The child's read loop: `results` are what `read` returns; the loop ends when one is
      not positive. */
  method ReadDiff(diff: string, pipe: string, results: seq<int>) returns (diff': string, pipe': string, total: nat)
    ensures diff' + pipe' == diff + pipe && diff <= diff' && |diff'| == |diff| + total
    ensures total == Least(Offered(results), |pipe|)
    ensures (exists i :: 0 <= i < |results| && results[i] <= 0) ==> (EndsEmpty(pipe, results) <==> pipe' == "")
  {
    diff', pipe', total := diff, pipe, 0;
    var calls := 0;
    assert results[0..] == results;
    while calls < |results| && results[calls] > 0
      invariant diff' + pipe' == diff + pipe && diff <= diff' && |diff'| == |diff| + total && calls <= |results|
      invariant EndsEmpty(pipe, results) <==> EndsEmpty(pipe', results[calls..])
      invariant total + Least(Offered(results[calls..]), |pipe'|) == Least(Offered(results), |pipe|)
      invariant forall i :: 0 <= i < calls ==> results[i] > 0
    {
      var n := Least(results[calls], |pipe'|);
      assert pipe' == pipe'[..n] + pipe'[n..];
      assert results[calls..][1..] == results[calls + 1..];
      diff', pipe' := diff' + pipe'[..n], pipe'[n..];
      total := total + n;
      calls := calls + 1;
    }
  }
}
