/** The ring buffer behind the eviction and free queues (`circular_queue.c`).
    `front` is where the next entry goes, `rear` where the oldest one is; one cell
    stays unused, so `front + 1 == rear` means full. */
module Ring {
  import opened Basics

  /** `INT32_MAX - 1`. */
  const QUEUE_MAX: nat := 0x7FFF_FFFE

  /** `DEFAULT_ARRAY_QUEUE_SIZE` and `DEFAULT_FREE_QUEUE_SIZE`. */
  const ARRAY_QUEUE_SIZE: nat := 100000
  const FREE_QUEUE_SIZE: nat := 64

  /** The cells in use, oldest first. */
  function Window<T>(cells: seq<T>, rear: nat, front: nat): (s: seq<T>)
    requires rear < |cells| && front < |cells|
    ensures |s| < |cells| && (s == [] <==> rear == front)
    ensures Next(front, |cells|) == rear <==> |s| == |cells| - 1
  {
    if rear <= front then cells[rear..front] else cells[rear..] + cells[..front]
  }

  function Next(i: nat, max: nat): (r: nat)
    requires i < max
    ensures r < max && r == if i + 1 == max then 0 else i + 1
  {
    (i + 1) % max
  }

  lemma SmallMod(i: nat, max: nat)
    requires i < max
    ensures i % max == i
  {
  }

  lemma PushWindow<T>(cells: seq<T>, rear: nat, front: nat, x: T)
    requires rear < |cells| && front < |cells| && Next(front, |cells|) != rear
    ensures Window(cells[front := x], rear, Next(front, |cells|)) == Window(cells, rear, front) + [x]
  {
  }

  lemma PopWindow<T>(cells: seq<T>, rear: nat, front: nat, x: T)
    requires rear < |cells| && front < |cells| && rear != front
    ensures Window(cells, rear, front)[0] == cells[rear]
    ensures Window(cells[rear := x], Next(rear, |cells|), front) == Window(cells, rear, front)[1..]
  {
  }

  /** A full ring, once its cells start a longer buffer and `front` is the last of them. */
  lemma GrowWindow<T>(cells: seq<T>, longer: seq<T>, rear: nat, front: nat)
    requires rear < |cells| < |longer| && front < |cells| && Next(front, |cells|) == rear && cells <= longer
    ensures Window(longer, rear, |cells| - 1) == Window(cells, rear, front)[..|cells| - 1 - rear]
  {
    assert longer[rear..|cells| - 1] == cells[rear..|cells| - 1];
  }

  function Growth(max: nat): (r: nat)
    requires 0 < max < QUEUE_MAX
    ensures max < r <= QUEUE_MAX
  {
    if QUEUE_MAX - max < max then QUEUE_MAX else max * 2
  }

  /** The ring doubles, up to its greatest size. */
  lemma GrowthDoubles(max: nat)
    requires 0 < max < QUEUE_MAX
    ensures Growth(max) == 2 * max || (2 * max > QUEUE_MAX && Growth(max) == QUEUE_MAX)
  {
  }

  /** What a full ring holds after one more entry, by where rear is. */
  function AfterGrowth<T>(contents: seq<T>, rear: nat, entry: T): seq<T>
    requires rear <= |contents|
  {
    contents[..|contents| - rear] + [entry]
  }

  /** Growth is a plain append exactly when rear is 0. */
  lemma GrowthKeepsOrderIff<T>(contents: seq<T>, rear: nat, entry: T)
    requires rear <= |contents|
    ensures AfterGrowth(contents, rear, entry) == contents + [entry] <==> rear == 0
  {
    if rear == 0 {
      assert contents[..|contents|] == contents;
    } else {
      assert |AfterGrowth(contents, rear, entry)| < |contents + [entry]|;
    }
  }

  // ---- the queue as a value ----

  datatype Cells<T> = Cells(cap: nat, rear: nat, items: seq<T>)
  {
    predicate Valid() {
      0 < cap && rear < cap && |items| < cap
    }
  }

  /** Capacity, position and entries: what the outcome of every operation depends on. */
  type Line<T> = c: Cells<T> | c.Valid() witness Cells(1, 0, [])

  /** Beyond QUEUE_MAX the server stops. */
  function Grown(cap: nat): (r: nat)
    requires 0 < cap
    ensures r > cap
  {
    if cap < QUEUE_MAX then Growth(cap) else 2 * cap
  }

  /** Only a prefix of the entries may survive an enqueue, but the new one always does. */
  function Push<T>(l: Line<T>, x: T): (r: Line<T>)
    ensures exists n :: 0 <= n <= |l.items| && r.items == l.items[..n] + [x]
  {
    if |l.items| + 1 == l.cap then
      assert AfterGrowth(l.items, l.rear, x) == l.items[..|l.items| - l.rear] + [x];
      Cells(Grown(l.cap), l.rear, AfterGrowth(l.items, l.rear, x))
    else
      assert l.items[..|l.items|] + [x] == l.items + [x];
      Cells(l.cap, l.rear, l.items + [x])
  }

  function Shift<T>(l: Line<T>): (r: Line<T>)
    requires l.items != []
    ensures r.items == l.items[1..]
  {
    Cells(l.cap, Next(l.rear, l.cap), l.items[1..])
  }

  function Values<T>(s: seq<Option<T>>): (r: seq<T>)
    requires None !in s
    ensures |r| == |s|
  {
    seq(|s|, i requires 0 <= i < |s| => s[i].value)
  }

  lemma ValuesOf<T>(s: seq<Option<T>>, rear: nat, x: T)
    requires None !in s
    ensures Values(s + [Some(x)]) == Values(s) + [x]
    ensures s != [] ==> Values(s[1..]) == Values(s)[1..]
    ensures rear <= |s| ==>
      None !in AfterGrowth(s, rear, Some(x)) && Values(AfterGrowth(s, rear, Some(x))) == AfterGrowth(Values(s), rear, x)
  {
  }

  class Queue<T> {
    var buf: array<Option<T>>
    var rear: nat
    var front: nat
    var max: nat
    var size: int

    /** Cells outside the queue hold anything: the buffer is never cleared. */
    ghost predicate Valid()
      reads this, buf
    {
      && 0 < max <= QUEUE_MAX && buf.Length == max && rear < max && front < max
      && None !in Window(buf[..], rear, front)
    }

    ghost function Contents(): (s: seq<Option<T>>)
      requires Valid()
      reads this, buf
    {
      Window(buf[..], rear, front)
    }

    ghost function Abstract(): Line<T>
      requires Valid()
      reads this, buf
    {
      Cells(max, rear, Values(Contents()))
    }

    predicate Full()
      requires front < max
      reads this
    {
      Next(front, max) == rear
    }

    constructor (capacity: nat)
      requires 0 < capacity <= QUEUE_MAX
      ensures Valid() && Contents() == [] && size == 0 && rear == 0 && max == capacity && fresh(buf)
      ensures Abstract() == Cells(capacity, 0, [])
    {
      rear, front, max, size := 0, 0, capacity, 0;
      buf := new Option<T>[capacity](_ => None);
    }

    /** The reallocation: the old cells are kept, `front` becomes the last of them. */
    method Grow()
      requires Valid() && Full() && max < QUEUE_MAX
      modifies this
      ensures Valid() && fresh(buf) && max == Growth(old(max)) && rear == old(rear) && size == old(size)
      ensures old(max) < max && front == old(max) - 1
      ensures Contents() == old(Contents())[..old(max) - 1 - rear]
    {
      hide Window, Next;
      var newBuf := new Option<T>[Growth(max)](_ => None);
      for i := 0 to max
        invariant unchanged(this) && newBuf[..i] == buf[..i]
      {
        newBuf[i] := buf[i];
      }
      GrowWindow(buf[..], newBuf[..], rear, front);
      SmallMod(rear, newBuf.Length);
      rear := rear % newBuf.Length;
      buf, front, max := newBuf, max - 1, newBuf.Length;
    }

    /** Appends; but when the ring is full, growing keeps only the cells from rear to
        the old end, less the last. */
    method Enqueue(entry: Option<T>) returns (ok: bool)
      requires Valid() && (entry.Some? && Full() ==> max < QUEUE_MAX)
      modifies this, buf
      ensures Valid() && ok == entry.Some? && (buf == old(buf) || fresh(buf))
      ensures !ok ==> Contents() == old(Contents()) && size == old(size)
      ensures ok ==> rear == old(rear) && size == old(size) + 1
      ensures ok && old(Full()) ==> Contents() == AfterGrowth(old(Contents()), rear, entry)
      ensures ok && !old(Full()) ==> Contents() == old(Contents()) + [entry]
      ensures ok ==> Abstract() == Push(old(Abstract()), entry.value)
    {
      hide Values;
      if entry.None? { return false; }
      ValuesOf(Contents(), rear, entry.value);
      if Full() { Grow(); }
      PushWindow(buf[..], rear, front, entry);
      ghost var cells := buf[..];
      buf[front] := entry;
      assert buf[..] == cells[front := entry];
      front := Next(front, max);
      size := size + 1;
      return true;
    }

    method Dequeue() returns (entry: Option<T>)
      requires Valid()
      modifies this, buf
      ensures Valid() && buf == old(buf) && max == old(max)
      ensures entry.None? <==> old(Contents()) == []
      ensures entry.None? ==> Contents() == [] && size == old(size)
      ensures entry.Some? ==> old(Contents()) == [entry] + Contents() && size == old(size) - 1
      ensures entry.Some? ==> old(Abstract()).items[0] == entry.value && Abstract() == Shift(old(Abstract()))
    {
      if rear == front { return None; }
      PopWindow(buf[..], rear, front, None);
      ghost var cells := buf[..];
      entry := buf[rear];
      buf[rear] := None;
      assert buf[..] == cells[rear := None];
      rear := Next(rear, max);
      size := size - 1;
    }
  }

  lemma WrapAndGrow()
    ensures var l: Line<nat> := Cells(3, 0, []);
      var l1: Line<nat> := Cells(3, 0, [1]);
      var l2: Line<nat> := Cells(3, 1, []);
      var l3: Line<nat> := Cells(3, 1, [2]);
      var l4: Line<nat> := Cells(3, 1, [2, 3]);
      && Push(l, 1) == l1 && Shift(l1) == l2 && Push(l2, 2) == l3 && Push(l3, 3) == l4
      && Push(l4, 4).items == [2, 4]
  {
    assert [2, 3][..1] == [2];
  }

  /** A ring of three that wraps and then grows: of 2, 3 and 4 only 2 and 4 are left. */
  method WrappedGrowthLoses() returns (q: Queue<nat>)
    ensures q.Valid() && q.Abstract().items == [2, 4] && q.size == 3
  {
    hide Push, Shift, Window, Values, AfterGrowth, Next;
    WrapAndGrow();
    q := new Queue<nat>(3);
    var _ := q.Enqueue(Some(1));
    assert q.Abstract() == Cells(3, 0, [1]);
    var x := q.Dequeue();
    assert x.Some? by { assert q.max == 3; }
    var _ := q.Enqueue(Some(2));
    assert q.Abstract() == Cells(3, 1, [2]);
    var _ := q.Enqueue(Some(3));
    assert q.Abstract() == Cells(3, 1, [2, 3]);
    var _ := q.Enqueue(Some(4));
  }
}
