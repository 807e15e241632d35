/** What the log does on disk, step by step and over runs: how far a flush gets, what a
    failed rewrite leaves, what the loader makes of a file that goes on with something else
    than commands, and the bytes themselves. */
module AofLaws {
  import opened Basics
  import opened Decimal
  import AofRewrite
  import opened AofLog
  import opened AofLoad

  // ---- flushing ----

  /** How many bytes of the buffer a flush leaves in the file: all that were written, unless
      the write was short and could be taken back. */
  function Kept(buffered: nat, written: int, truncated: bool): nat {
    if written <= 0 || (written < buffered && truncated) then 0 else written
  }

  /** The file grows by exactly the bytes kept, and they leave the buffer. */
  lemma FlushGrows(w: AofRewrite.Aof, written: int, truncated: bool)
    requires AofRewrite.Inv(w) && w.mode == AofRewrite.On && -1 <= written <= |w.buf|
    ensures var r, n := AofRewrite.Exec(w, AofRewrite.Flush(written, truncated)), Kept(|w.buf|, written, truncated);
      && n <= |w.buf| && r.file == w.file + w.buf[..n] && r.buf == w.buf[n..] && r.size == w.size + n
      && r == w.(file := r.file, buf := r.buf, size := r.size)
  {
    if w.buf != "" && 0 <= written < |w.buf| { assert (w.file + w.buf[..written])[..w.size] == w.file; }
    assert w.buf[..|w.buf|] == w.buf && w.file + w.buf[..0] == w.file;
  }

  /** After any run, one full write leaves the whole stream in the file and nothing in the
      buffer; between rewrites the stream is what it was and every byte fed since. */
  lemma FullFlushIsWhole(w: AofRewrite.Aof, steps: seq<AofRewrite.Step>, truncated: bool)
    requires AofRewrite.Init(w) && w.mode == AofRewrite.On && AofRewrite.Run(w, steps)
    ensures var r := AofRewrite.After(w, steps);
      var done := AofRewrite.Exec(r, AofRewrite.Flush(|r.buf|, truncated));
      && done.file == r.stream && done.buf == "" && done.size == |done.file|
      && (AofRewrite.NoSwitch(steps) ==> done.file == w.stream + AofRewrite.FedSince("", steps))
  {
    hide AofRewrite.Run, AofRewrite.After, AofRewrite.Exec;
    var r := AofRewrite.After(w, steps);
    AofRewrite.RunInv(w, steps);
    AofRewrite.StaysOn(w, steps);
    AofRewrite.FlushLosesNothing(w, steps);
    FlushGrows(r, |r.buf|, truncated);
    assert r.buf[..|r.buf|] == r.buf;
    if AofRewrite.NoSwitch(steps) { AofRewrite.StreamGrows(w, steps); }
  }

  /** Only a flush and a finished rewrite touch the file; only they and feeding the buffer. */
  lemma LogStays(w: AofRewrite.Aof, step: AofRewrite.Step)
    requires AofRewrite.Enabled(w, step) && !step.Flush? && step != AofRewrite.Done(true)
    ensures var r := AofRewrite.Exec(w, step);
      && r.file == w.file && r.size == w.size && r.mode == w.mode
      && r.buf == w.buf + (if step.Feed? && w.mode == AofRewrite.On then step.bytes else "")
  {
    assert w.buf + "" == w.buf;
  }

  /** A rewrite that fails leaves nothing behind but the log as it was. */
  lemma FailedRewriteLeaves(w: AofRewrite.Aof, step: AofRewrite.Step)
    requires AofRewrite.Enabled(w, step) && (step == AofRewrite.Done(false) || step == AofRewrite.ChildFails)
    ensures AofRewrite.Exec(w, step) == w.(phase := AofRewrite.NoChild, pending := "")
  {
  }

  /** A finished one turns on a log that waited for it, and no other. */
  lemma FinishedRewriteSwitches(w: AofRewrite.Aof)
    requires AofRewrite.Enabled(w, AofRewrite.Done(true))
    ensures var r := AofRewrite.Exec(w, AofRewrite.Done(true));
      && r.file == w.tmp + w.pending && r.phase == AofRewrite.NoChild && r.pending == ""
      && (r.mode == AofRewrite.On <==> w.mode != AofRewrite.Off)
      && (r.mode == AofRewrite.On ==> r.buf == "" && r.size == |r.file|)
  {
  }

  /** Sending and reading move as many bytes as they say. */
  lemma PipeMoves(w: AofRewrite.Aof, n: nat)
    ensures AofRewrite.Enabled(w, AofRewrite.Send(n)) ==>
      var r := AofRewrite.Exec(w, AofRewrite.Send(n)); |r.data| == |w.data| + n && |r.pending| == |w.pending| - n
    ensures AofRewrite.Enabled(w, AofRewrite.ChildRead(n)) ==>
      var r := AofRewrite.Exec(w, AofRewrite.ChildRead(n)); |r.diff| == |w.diff| + n && |r.data| == |w.data| - n
  {
  }

  // ---- loading ----

  /** A line ends with its newline, with the file, or after 127 characters. */
  lemma {:induction false} LineEnds(s: string, room: nat)
    ensures var n := LineLength(s, room);
      && n <= room && n <= |s| && (forall i :: 0 <= i < n - 1 ==> s[i] != '\n')
      && (n < room && n < |s| ==> n > 0 && s[n - 1] == '\n')
    decreases room
  {
    if s != [] && room > 0 && s[0] != '\n' { LineEnds(s[1..], room - 1); }
  }

  /** What has no newline in time is cut after 127 characters. */
  lemma LongLine(s: string)
    requires |s| >= 127 && '\n' !in s[..126]
    ensures Line(s) == s[..127]
  {
    LineEnds(s, LINE_MAX);
    assert forall i :: 0 <= i < 126 ==> s[i] == s[..126][i];
  }

  lemma {:induction false} LoadAfter(log: seq<Command>, tail: string, at: nat)
    requires AllFit(log)
    ensures LoadFrom(EncodeLog(log) + tail, at) == After(log, LoadFrom(tail, at + |EncodeLog(log)|))
    decreases |log|
  {
    hide ReadCommand, Encode, Fits;
    if log == [] {
      assert EncodeLog(log) + tail == tail;
      AfterTwice([], [], LoadFrom(tail, at));
    } else {
      var c, rest := log[0], EncodeLog(log[1..]) + tail;
      assert EncodeLog(log) + tail == Encode(c) + rest;
      assert Fits(c) && AllFit(log[1..]);
      ReadWholeCommand(c, rest);
      LoadAfter(log[1..], tail, at + |Encode(c)|);
      AfterTwice([c], log[1..], LoadFrom(tail, at + |EncodeLog(log)|));
      assert [c] + log[1..] == log;
    }
  }

  /** Text that is no command, and no beginning of one: another first character, a count
      that is zero or negative, an argument that does not start with its length. */
  predicate NoCommand(t: string) {
    t != "" &&
    (t[0] != '*' || "*-" <= t || "*0\r\n" <= t || "*\0\n" <= t || ("*1\r\n" < t && t[4] != '$'))
  }

  lemma FirstLine(t: string, line: string)
    requires line <= t && 0 < |line| <= LINE_MAX && line[|line| - 1] == '\n'
    requires forall i :: 0 <= i < |line| - 1 ==> line[i] != '\n'
    ensures Line(t) == line
  {
    LineEnds(t, LINE_MAX);
  }

  lemma ZeroIsNoCount()
    ensures Atoi(CString("0\r\n")) == 0 && Atoi(CString("1\r\n")) == 1
  {
    CStringOfPlain("0\r\n");
    CStringOfPlain("1\r\n");
    assert Dec(0) == "0" && Dec(1) == "1";
    AtoiOfDec(0, "\r\n");
    AtoiOfDec(1, "\r\n");
  }

  lemma NegativeIsNoCount(line: string)
    requires |line| > 1 && line[1] == '-'
    ensures Atoi(CString(line[1..])) <= 0
  {
    var s := CString(line[1..]);
    assert s[0] == '-';
  }

  lemma NoCommandFails(t: string)
    requires NoCommand(t)
    ensures var r := ReadCommand(t); r.Failed? && r.why != Eof
  {
    hide Atoi, LineLength, CString;
    LineStarts(t);
    if "*-" <= t {
      LineLongerThan(t);
      NegativeIsNoCount(Line(t));
    } else if "*0\r\n" <= t {
      FirstLine(t, "*0\r\n");
      ZeroIsNoCount();
    } else if "*\0\n" <= t {
      FirstLine(t, "*\0\n");
    } else if "*1\r\n" < t {
      FirstLine(t, "*1\r\n");
      ZeroIsNoCount();
      assert t[4..] != "" && t[4..][0] == t[4];
      LineStarts(t[4..]);
    }
  }

  lemma LineLongerThan(t: string)
    requires |t| > 1 && t[0] != '\n'
    ensures |Line(t)| > 1
  {
    LineEnds(t, LINE_MAX);
  }

  /** Commands followed by something else: they are executed, the rest is told from a file
      that was merely cut, and the offset is where it starts. */
  lemma CorruptTail(log: seq<Command>, tail: string)
    requires AllFit(log) && NoCommand(tail)
    ensures Load(EncodeLog(log) + tail) == Loaded(log, |EncodeLog(log)|, Corrupt)
  {
    hide ReadCommand, EncodeLog, AllFit;
    LoadAfter(log, tail, 0);
    NoCommandFails(tail);
    assert log + [] == log;
  }

  // ---- bytes ----

  lemma SmallNumbers()
    ensures Dec(0) == "0" && Dec(1) == "1" && Dec(2) == "2" && Dec(3) == "3" && Dec(6) == "6"
  {
  }

  lemma ArgBytes()
    ensures EncodeArg("SET") == "$3\r\nSET\r\n" && EncodeArg("k") == "$1\r\nk\r\n"
    ensures EncodeArg("") == "$0\r\n\r\n" && EncodeArg("3") == "$1\r\n3\r\n"
  {
    SmallNumbers();
    hide Dec;
  }

  lemma SelectArgBytes()
    ensures EncodeArg("SELECT") == "$6\r\nSELECT\r\n"
  {
    SmallNumbers();
    hide Dec;
  }

  lemma CountBytes()
    ensures EncodeCount('*', 2) == "*2\r\n" && EncodeCount('*', 3) == "*3\r\n"
  {
    SmallNumbers();
    hide Dec;
  }

  lemma OneMoreArg(a: string, rest: seq<string>)
    ensures EncodeArgs([a] + rest) == EncodeArg(a) + EncodeArgs(rest)
    ensures EncodeArgs([a]) == EncodeArg(a)
  {
    assert ([a] + rest)[1..] == rest;
    assert EncodeArgs([]) == "" && EncodeArg(a) + "" == EncodeArg(a);
  }

  /** The protocol's text of a command, and of the SELECT that goes before one. */
  lemma LogBytes()
    ensures Encode(["SET", "k", ""]) == "*3\r\n" + ("$3\r\nSET\r\n" + ("$1\r\nk\r\n" + "$0\r\n\r\n"))
    ensures Encode(Select(3)) == "*2\r\n" + ("$6\r\nSELECT\r\n" + "$1\r\n3\r\n")
  {
    SmallNumbers();
    ArgBytes();
    SelectArgBytes();
    CountBytes();
    hide Dec, EncodeArgs, EncodeArg, EncodeCount;
    OneMoreArg("", []);
    OneMoreArg("k", [""]);
    OneMoreArg("SET", ["k", ""]);
    OneMoreArg("3", []);
    OneMoreArg("SELECT", ["3"]);
    assert ["k"] + [""] == ["k", ""] && ["SET"] + ["k", ""] == ["SET", "k", ""];
    assert ["SELECT"] + ["3"] == Select(3);
  }
}
