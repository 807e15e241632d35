/** The append-only file while it is flushed and rewritten: two processes, a pipe for
    the differences and the stop/ack handshake. */
module AofRewrite {

  /** `aof_state`; a log that waits is turned on by the rewrite it waits for. */
  datatype Mode = Off | Waiting | On

  datatype Phase = NoChild | Saving | Asked | Acked | Exited

  /** `pending` is the rewrite buffer, `data` the pipe to the child, `diff` what the
      child has read, `tmp` the file it leaves.  The last three fields are history:
      what the child found in memory, the bytes fed since the fork, and the bytes the
      file and its buffer stand for. */
  datatype Aof = Aof(
    mode: Mode,
    file: string,
    buf: string,
    size: nat,
    pending: string,
    stop: bool,
    data: string,
    ask: bool,
    ack: bool,
    phase: Phase,
    diff: string,
    tmp: string,
    snapshot: string,
    fed: string,
    stream: string)

  datatype Step =
    | Feed(bytes: string)
    | Flush(written: int, truncated: bool)
    | Fork(snapshot: string)
    | Send(n: nat)
    | ChildRead(n: nat)
    | ChildAsk
    | ParentAck(sent: bool)
    | ChildAcked
    | ChildFinish(n: nat)
    | ChildFails
    | Done(ok: bool)

  /** What `write` may return for the whole buffer, and when each process can move. */
  predicate Enabled(w: Aof, step: Step) {
    match step
    case Feed(_) => true
    case Flush(written, _) => -1 <= written <= |w.buf|
    case Fork(_) => w.phase == NoChild
    case Send(n) => w.phase != NoChild && !w.stop && n <= |w.pending|
    case ChildRead(n) => w.phase == Saving && n <= |w.data|
    case ChildAsk => w.phase == Saving
    case ParentAck(_) => w.phase != NoChild && w.ask
    case ChildAcked => w.phase == Asked && w.ack
    case ChildFinish(n) => w.phase == Acked && n <= |w.data|
    case ChildFails => w.phase != NoChild
    case Done(_) => w.phase == Exited
  }

  /** `ftruncate` to the recorded size. */
  function Truncate(file: string, size: nat): string {
    if size <= |file| then file[..size] else file
  }

  /** `flushAppendOnlyFile`, for the policies that survive a failed write. */
  function FlushStep(w: Aof, written: int, truncated: bool): Aof
    requires -1 <= written <= |w.buf|
  {
    if w.buf == "" then w
    else if written == |w.buf| then w.(file := w.file + w.buf, size := w.size + written, buf := "")
    else if written == -1 then w
    else
      var file := w.file + w.buf[..written];
      if truncated then w.(file := Truncate(file, w.size))
      else w.(file := file, size := w.size + written, buf := w.buf[written..])
  }

  function Exec(w: Aof, step: Step): Aof
    requires Enabled(w, step)
  {
    match step
    case Feed(bytes) =>
      w.(buf := if w.mode == On then w.buf + bytes else w.buf,
         pending := if w.phase != NoChild then w.pending + bytes else w.pending,
         fed := w.fed + bytes,
         stream := if w.mode == On then w.stream + bytes else w.stream)
    case Flush(written, truncated) => FlushStep(w, written, truncated)
    case Fork(snapshot) =>
      w.(phase := Saving, stop := false, data := "", ask := false, ack := false, diff := "", tmp := "",
         snapshot := snapshot, fed := "")
    case Send(n) => w.(data := w.data + w.pending[..n], pending := w.pending[n..])
    case ChildRead(n) => w.(diff := w.diff + w.data[..n], data := w.data[n..])
    case ChildAsk => w.(phase := Asked, ask := true)
    case ParentAck(sent) => w.(stop := true, ask := false, ack := sent)
    case ChildAcked => w.(phase := Acked, ack := false)
    case ChildFinish(n) =>
      w.(phase := Exited, diff := w.diff + w.data[..n], data := w.data[n..], tmp := w.snapshot + (w.diff + w.data[..n]))
    case ChildFails => w.(phase := NoChild, pending := "")
    case Done(ok) =>
      if !ok then w.(phase := NoChild, pending := "")
      else
        var file := w.tmp + w.pending;
        if w.mode == Off then w.(phase := NoChild, pending := "", file := file)
        else w.(phase := NoChild, pending := "", file := file, size := |file|, buf := "", mode := On, stream := file)
  }

  predicate Inv(w: Aof) {
    && (w.mode == On ==> w.stream == w.file + w.buf && w.size == |w.file|)
    && (w.mode != On ==> w.buf == "")
    && (w.phase == NoChild ==> w.pending == "")
    && (w.phase != NoChild ==> w.fed == w.diff + w.data + w.pending)
    && (w.phase == Acked || w.phase == Exited || w.ack ==> w.stop)
    && (w.phase == Exited ==> w.tmp == w.snapshot + w.diff)
  }

  // ---- one step ----

  lemma FlushInv(w: Aof, written: int, truncated: bool)
    requires Inv(w) && -1 <= written <= |w.buf|
    ensures var r := FlushStep(w, written, truncated); Inv(r) && r.stream == w.stream
  {
    if 0 <= written < |w.buf| {
      var file := w.file + w.buf[..written];
      assert file[..|w.file|] == w.file;
      assert w.buf == w.buf[..written] + w.buf[written..];
    }
  }

  /** Moving bytes from the front of one store to the end of the one before it. */
  lemma Shift(a: string, b: string, c: string, n: nat)
    requires n <= |b|
    ensures (a + b[..n]) + b[n..] + c == a + b + c
    ensures c + (a + b[..n]) + b[n..] == c + a + b
  {
    assert b[..n] + b[n..] == b;
  }

  lemma FeedInv(w: Aof, bytes: string)
    requires Inv(w)
    ensures Inv(Exec(w, Feed(bytes)))
  {
    assert w.mode == On ==> (w.file + w.buf) + bytes == w.file + (w.buf + bytes);
    assert w.phase != NoChild ==> (w.diff + w.data + w.pending) + bytes == w.diff + w.data + (w.pending + bytes);
  }

  lemma SendInv(w: Aof, n: nat)
    requires Inv(w) && Enabled(w, Send(n))
    ensures Inv(Exec(w, Send(n)))
  {
    Shift(w.data, w.pending, w.diff, n);
  }

  lemma ReadInv(w: Aof, n: nat)
    requires Inv(w) && Enabled(w, ChildRead(n))
    ensures Inv(Exec(w, ChildRead(n)))
  {
    Shift(w.diff, w.data, w.pending, n);
  }

  lemma FinishInv(w: Aof, n: nat)
    requires Inv(w) && Enabled(w, ChildFinish(n))
    ensures Inv(Exec(w, ChildFinish(n)))
  {
    Shift(w.diff, w.data, w.pending, n);
  }

  lemma DoneInv(w: Aof, ok: bool)
    requires Inv(w) && Enabled(w, Done(ok))
    ensures Inv(Exec(w, Done(ok)))
  {
    var file := w.tmp + w.pending;
    assert file + "" == file;
  }

  lemma SignalInv(w: Aof, step: Step)
    requires Inv(w) && Enabled(w, step)
    requires step.Fork? || step.ChildAsk? || step.ParentAck? || step.ChildAcked? || step.ChildFails?
    ensures Inv(Exec(w, step))
  {
    assert step.Fork? ==> Exec(w, step).diff + Exec(w, step).data + Exec(w, step).pending == "";
  }

  lemma StepInv(w: Aof, step: Step)
    requires Inv(w) && Enabled(w, step)
    ensures Inv(Exec(w, step))
  {
    match step {
      case Feed(bytes) => FeedInv(w, bytes);
      case Flush(written, truncated) => FlushInv(w, written, truncated);
      case Send(n) => SendInv(w, n);
      case ChildRead(n) => ReadInv(w, n);
      case ChildFinish(n) => FinishInv(w, n);
      case Done(ok) => DoneInv(w, ok);
      case _ => SignalInv(w, step);
    }
    hide Inv, Enabled, FlushStep;
  }

  // ---- runs ----

  predicate Run(w: Aof, steps: seq<Step>)
    decreases |steps|
  {
    steps == [] || (Enabled(w, steps[0]) && Run(Exec(w, steps[0]), steps[1..]))
  }

  function After(w: Aof, steps: seq<Step>): Aof
    requires Run(w, steps)
    decreases |steps|
  {
    if steps == [] then w else After(Exec(w, steps[0]), steps[1..])
  }

  lemma {:induction false} RunInv(w: Aof, steps: seq<Step>)
    requires Inv(w) && Run(w, steps)
    ensures Inv(After(w, steps))
    decreases |steps|
  {
    hide Inv, Enabled, Exec;
    if steps != [] {
      StepInv(w, steps[0]);
      RunInv(Exec(w, steps[0]), steps[1..]);
    }
  }

  /** The bytes fed in a run since its last fork. */
  function FedSince(fed: string, steps: seq<Step>): string
    decreases |steps|
  {
    if steps == [] then fed
    else
      match steps[0]
      case Feed(bytes) => FedSince(fed + bytes, steps[1..])
      case Fork(_) => FedSince("", steps[1..])
      case _ => FedSince(fed, steps[1..])
  }

  lemma {:induction false} FedIs(w: Aof, steps: seq<Step>)
    requires Run(w, steps)
    ensures After(w, steps).fed == FedSince(w.fed, steps)
    decreases |steps|
  {
    if steps != [] { FedIs(Exec(w, steps[0]), steps[1..]); }
  }

  /** No rewrite running: the log is on, or still to be started by a rewrite. */
  predicate Init(w: Aof) {
    && w.phase == NoChild && w.pending == "" && !w.ack
    && (if w.mode == On then w.stream == w.file + w.buf && w.size == |w.file| else w.buf == "")
  }

  /** Flushing: in every run the file followed by its buffer is the whole stream, and
      the recorded size is that of the file. */
  lemma FlushLosesNothing(w: Aof, steps: seq<Step>)
    requires Init(w) && w.mode == On && Run(w, steps)
    ensures var r := After(w, steps); r.mode == On && r.file + r.buf == r.stream && r.size == |r.file|
  {
    hide Enabled, Exec;
    RunInv(w, steps);
    StaysOn(w, steps);
  }

  lemma {:induction false} StaysOn(w: Aof, steps: seq<Step>)
    requires w.mode == On && Run(w, steps)
    ensures After(w, steps).mode == On
    decreases |steps|
  {
    if steps != [] { StaysOn(Exec(w, steps[0]), steps[1..]); }
  }

  lemma StreamStep(w: Aof, step: Step)
    requires w.mode == On && Enabled(w, step) && !step.Done? && !step.Fork?
    ensures Exec(w, step).mode == On && Exec(w, step).stream == w.stream + if step.Feed? then step.bytes else ""
  {
  }

  predicate NoSwitch(steps: seq<Step>) {
    forall i :: 0 <= i < |steps| ==> !steps[i].Done? && !steps[i].Fork?
  }

  /** Between rewrites the stream is what it was and the bytes fed after that. */
  lemma {:induction false} StreamGrows(w: Aof, steps: seq<Step>)
    requires w.mode == On && Run(w, steps) && NoSwitch(steps)
    ensures After(w, steps).stream == w.stream + FedSince("", steps)
    decreases |steps|
  {
    hide Exec, Enabled;
    if steps != [] {
      var s, rest := steps[0], steps[1..];
      assert NoSwitch(rest) && !s.Done? && !s.Fork?;
      hide NoSwitch;
      StreamStep(w, s);
      StreamGrows(Exec(w, s), rest);
      if s.Feed? {
        assert "" + s.bytes == s.bytes;
        FedLater(s.bytes, rest);
        assert (w.stream + s.bytes) + FedSince("", rest) == w.stream + (s.bytes + FedSince("", rest));
      } else {
        assert w.stream + "" == w.stream;
      }
    }
  }

  lemma FedLater(fed: string, steps: seq<Step>)
    requires NoSwitch(steps)
    ensures FedSince(fed, steps) == fed + FedSince("", steps)
  {
    hide FedSince;
    FedAppend(fed, steps);
  }

  lemma {:induction false} FedAppend(fed: string, steps: seq<Step>)
    requires forall i :: 0 <= i < |steps| ==> !steps[i].Fork?
    ensures FedSince(fed, steps) == fed + FedSince("", steps)
    decreases |steps|
  {
    if steps != [] {
      var s := steps[0];
      if s.Feed? {
        FedAppend(fed + s.bytes, steps[1..]);
        FedAppend("" + s.bytes, steps[1..]);
        assert "" + s.bytes == s.bytes;
      } else {
        FedAppend(fed, steps[1..]);
      }
    }
  }

  /** Did the child's last read, if there was one, take all that was in the pipe? */
  predicate LastReadEmpties(w: Aof, steps: seq<Step>, before: bool)
    requires Run(w, steps)
    decreases |steps|
  {
    if steps == [] then before
    else
      LastReadEmpties(Exec(w, steps[0]), steps[1..],
                      if steps[0].ChildFinish? then steps[0].n == |w.data| else before)
  }

  lemma EmptiedStep(w: Aof, step: Step, before: bool)
    requires Inv(w) && Enabled(w, step) && (w.phase == Exited ==> (w.data == "" <==> before))
    ensures var r := Exec(w, step);
      r.phase == Exited ==> (r.data == "" <==> if step.ChildFinish? then step.n == |w.data| else before)
  {
  }

  lemma {:induction false} EmptiedPipe(w: Aof, steps: seq<Step>, before: bool)
    requires Inv(w) && Run(w, steps) && (w.phase == Exited ==> (w.data == "" <==> before))
    ensures After(w, steps).phase == Exited ==> (After(w, steps).data == "" <==> LastReadEmpties(w, steps, before))
    decreases |steps|
  {
    hide Exec, Enabled, Inv;
    if steps != [] {
      StepInv(w, steps[0]);
      EmptiedStep(w, steps[0], before);
      EmptiedPipe(Exec(w, steps[0]), steps[1..], if steps[0].ChildFinish? then steps[0].n == |w.data| else before);
    }
  }

  /** The handover: when the parent switches files, the new one is the snapshot and
      every byte fed since the fork, in order, exactly when the child's last read took
      all that was in the pipe. */
  lemma RewriteIsExactIff(w: Aof, steps: seq<Step>)
    requires Init(w) && Run(w, steps) && After(w, steps).phase == Exited
    ensures var r := After(w, steps);
      Exec(r, Done(true)).file == r.snapshot + FedSince(w.fed, steps) <==> LastReadEmpties(w, steps, true)
  {
    EmptiedPipe(w, steps, true);
    hide Enabled, Run, After, LastReadEmpties;
    RunInv(w, steps);
    FedIs(w, steps);
    var r := After(w, steps);
    Handover(r.snapshot, r.diff, r.data, r.pending);
  }

  lemma Handover(snapshot: string, diff: string, data: string, pending: string)
    ensures snapshot + diff + pending == snapshot + (diff + data + pending) <==> data == ""
  {
    if data != "" {
      assert |snapshot + diff + pending| < |snapshot + (diff + data + pending)|;
    }
  }

  /** Every last read of a child empties the pipe. */
  predicate Drains(w: Aof, steps: seq<Step>)
    requires Run(w, steps)
    decreases |steps|
  {
    steps == [] ||
    ((steps[0].ChildFinish? ==> steps[0].n == |w.data|) && Drains(Exec(w, steps[0]), steps[1..]))
  }

  lemma {:induction false} DrainsLast(w: Aof, steps: seq<Step>)
    requires Run(w, steps) && Drains(w, steps)
    ensures LastReadEmpties(w, steps, true)
    decreases |steps|
  {
    hide Exec, Enabled;
    if steps != [] { DrainsLast(Exec(w, steps[0]), steps[1..]); }
  }

  /** For every schedule whose last reads empty the pipe, a successful rewrite leaves
      the snapshot followed by every byte fed since the fork. */
  lemma RewriteLosesNothing(w: Aof, steps: seq<Step>)
    requires Init(w) && Run(w, steps) && Drains(w, steps) && After(w, steps).phase == Exited
    ensures var r := After(w, steps); Exec(r, Done(true)).file == r.snapshot + FedSince(w.fed, steps)
  {
    hide Enabled, Exec;
    DrainsLast(w, steps);
    RewriteIsExactIff(w, steps);
  }

  predicate Next(w: Aof, step: Step, r: Aof) {
    Enabled(w, step) && r == Exec(w, step)
  }

  /** One byte is fed and sent, */
  lemma Sent(w: Aof) returns (w1: Aof, w2: Aof, w3: Aof)
    requires Init(w)
    ensures Next(w, Fork("s"), w1) && Next(w1, Feed("x"), w2) && Next(w2, Send(1), w3)
    ensures w3.phase == Saving && w3.snapshot == "s" && w3.diff == "" && w3.pending == ""
  {
    w1 := Exec(w, Fork("s"));
    w2 := Exec(w1, Feed("x"));
    assert w2.pending == "x";
    w3 := Exec(w2, Send(1));
  }

  /** and never read. */
  lemma Unread(w: Aof) returns (w1: Aof, w2: Aof, w3: Aof, w4: Aof)
    requires w.phase == Saving && w.snapshot == "s" && w.diff == "" && w.pending == ""
    ensures Next(w, ChildAsk, w1) && Next(w1, ParentAck(true), w2) && Next(w2, ChildAcked, w3)
    ensures Next(w3, ChildFinish(0), w4) && Enabled(w4, Done(true)) && Exec(w4, Done(true)).file == "s"
  {
    w1 := Exec(w, ChildAsk);
    w2 := Exec(w1, ParentAck(true));
    w3 := Exec(w2, ChildAcked);
    w4 := Exec(w3, ChildFinish(0));
    assert w4.tmp == "s" && w4.pending == "";
  }

  /** A last read that leaves a byte in the pipe loses it. */
  lemma ShortLastReadLoses(w: Aof) returns (steps: seq<Step>)
    requires Init(w)
    ensures Run(w, steps) && After(w, steps).phase == Exited && FedSince(w.fed, steps) == "x"
    ensures Exec(After(w, steps), Done(true)).file == "s"
  {
    var w1, w2, w3 := Sent(w);
    var w4, w5, w6, _ := Unread(w3);
    hide Exec, Init;
    steps := [];
    steps := OneMore(w6, ChildFinish(0), steps);
    steps := OneMore(w5, ChildAcked, steps);
    steps := OneMore(w4, ParentAck(true), steps);
    steps := OneMore(w3, ChildAsk, steps);
    steps := OneMore(w2, Send(1), steps);
    steps := OneMore(w1, Feed("x"), steps);
    steps := OneMore(w, Fork("s"), steps);
    FedOnce(w.fed, steps);
  }

  lemma FedOnce(fed: string, steps: seq<Step>)
    requires steps == [Fork("s"), Feed("x"), Send(1), ChildAsk, ParentAck(true), ChildAcked, ChildFinish(0)]
    ensures FedSince(fed, steps) == "x"
  {
    var t1 := steps[1..];
    var t2 := t1[1..];
    var t3 := t2[1..];
    var t4 := t3[1..];
    var t5 := t4[1..];
    var t6 := t5[1..];
    assert t6[1..] == [];
    assert FedSince("x", t6) == "x";
    assert FedSince("x", t4) == "x";
    assert FedSince("x", t2) == "x";
    assert "" + "x" == "x";
  }

  lemma OneMore(w: Aof, step: Step, rest: seq<Step>) returns (steps: seq<Step>)
    requires Enabled(w, step) && Run(Exec(w, step), rest)
    ensures steps == [step] + rest && Run(w, steps) && After(w, steps) == After(Exec(w, step), rest)
  {
    steps := [step] + rest;
    assert steps[1..] == rest;
    hide Enabled, Exec;
  }
}
