/** Loading inverts encoding, and of a log that was cut off it executes exactly the
    commands that are whole. */
module AofLoad {
  import opened Basics
  import opened Decimal
  import opened AofLog

  /** What fits a `long`; the loader's line buffer holds any count below this. */
  const LIMIT: nat := 0x8000_0000_0000_0000

  /** What fits the `int` that counts arguments. */
  const ARGC_LIMIT: nat := 0x8000_0000

  predicate Fits(c: Command) {
    0 < |c| < ARGC_LIMIT && forall i :: 0 <= i < |c| ==> |c[i]| < LIMIT
  }

  predicate AllFit(log: seq<Command>) {
    forall i :: 0 <= i < |log| ==> Fits(log[i])
  }

  // ---- lines ----

  lemma Pow20()
    ensures Pow10(20) == 100_000_000_000_000_000_000
  {
    assert Pow10(5) == 100_000 by { assert Pow10(2) == 100; assert Pow10(4) == 10_000; }
    assert Pow10(10) == 10_000_000_000 by { assert Pow10(7) == 10_000_000; assert Pow10(9) == 1_000_000_000; }
    assert Pow10(15) == 1_000_000_000_000_000 by {
      assert Pow10(12) == 1_000_000_000_000;
      assert Pow10(14) == 100_000_000_000_000;
    }
    assert Pow10(17) == 100_000_000_000_000_000;
    assert Pow10(19) == 10_000_000_000_000_000_000;
  }

  lemma ShortCount(n: nat)
    requires n < LIMIT
    ensures |Dec(n)| <= 20
  {
    Pow20();
    DecLength(n, 20);
  }

  /** A line is read whole when it fits the buffer. */
  lemma {:induction false} LineOf(s: string, rest: string, room: nat)
    requires '\n' !in s && |s| < room
    ensures LineLength(s + "\n" + rest, room) == |s| + 1
  {
    if s == [] {
      assert s + "\n" + rest == "\n" + rest;
    } else {
      assert (s + "\n" + rest)[1..] == s[1..] + "\n" + rest;
      LineOf(s[1..], rest, room - 1);
    }
  }

  /** The last line of a file has no newline to stop at. */
  lemma {:induction false} LineAtEnd(s: string, room: nat)
    requires '\n' !in s && |s| < room
    ensures LineLength(s, room) == |s|
  {
    if s != [] { LineAtEnd(s[1..], room - 1); }
  }

  /** Reading back a count line. */
  lemma CountLine(prefix: char, n: nat, rest: string)
    requires n < LIMIT && prefix != '\n'
    ensures var s := EncodeCount(prefix, n) + rest;
      && Line(s) == EncodeCount(prefix, n) && s[|Line(s)|..] == rest
      && Line(s)[0] == prefix && |Line(s)| > 1 && Line(s)[1] != NUL && Atoi(CString(Line(s)[1..])) == n
  {
    var s := EncodeCount(prefix, n) + rest;
    var body := [prefix] + Dec(n) + "\r";
    ShortCount(n);
    DecHasNo(n, '\n');
    assert s == body + "\n" + rest;
    LineOf(body, rest, LINE_MAX);
    assert Line(s) == EncodeCount(prefix, n);
    DecHasNo(n, NUL);
    var text := Dec(n) + CRLF;
    assert Line(s)[1..] == text;
    assert NUL !in text;
    CStringOfPlain(text);
    AtoiOfDec(n, CRLF);
  }

  // ---- a count line cut off ----

  lemma {:induction false} ValueAtLeast(s: string)
    requires AllDigits(s) && s != [] && s[0] != '0'
    ensures Value(s) >= 1
  {
    if |s| > 1 { ValueAtLeast(s[..|s| - 1]); } else { assert s[..0] == []; }
  }

  /** What the loader takes a cut count for: a number that is not negative, and not
      zero if the count is not. */
  lemma CutNumber(n: nat, k: nat)
    requires k <= |Dec(n)| + 1
    ensures Atoi((Dec(n) + "\r")[..k]) >= 0
    ensures n > 0 && k > 0 ==> Atoi((Dec(n) + "\r")[..k]) >= 1
  {
    var t := (Dec(n) + "\r")[..k];
    if k == 0 {
      assert t == [];
    } else if k <= |Dec(n)| {
      assert t == Dec(n)[..k];
      RunOfDigits(t, "");
      assert t + "" == t && t[..k] == t;
      assert t[0..] == t;
      if n > 0 {
        DecLeading(n);
        ValueAtLeast(t);
      }
    } else {
      assert t == Dec(n) + "\r";
      AtoiOfDec(n, "\r");
    }
  }

  /** A count line that lost its newline is the last line of the file. */
  lemma CutLine(prefix: char, n: nat, k: nat)
    requires n < LIMIT && prefix != '\n' && prefix != NUL && 0 < k < |EncodeCount(prefix, n)|
    ensures var s := EncodeCount(prefix, n)[..k];
      && Line(s) == s && HitsEnd(s) && s[0] == prefix
      && CString(s[1..]) == (Dec(n) + "\r")[..k - 1]
      && (k > 1 ==> s[1] != NUL) && k - 1 <= |Dec(n)| + 1
  {
    var s := EncodeCount(prefix, n)[..k];
    ShortCount(n);
    DecHasNo(n, '\n');
    DecHasNo(n, NUL);
    var text := Dec(n) + "\r";
    assert EncodeCount(prefix, n) == [prefix] + text + "\n";
    assert s == [prefix] + text[..k - 1];
    assert '\n' !in s && NUL !in text[..k - 1];
    LineAtEnd(s, LINE_MAX);
    assert s[1..] == text[..k - 1];
    CStringOfPlain(s[1..]);
  }

  // ---- arguments ----

  lemma ReadWholeArg(a: string, rest: string)
    requires |a| < LIMIT
    ensures ReadArg(EncodeArg(a) + rest) == Got(a, rest)
  {
    hide Atoi, CString, Line, EncodeCount;
    var s := EncodeArg(a) + rest;
    assert s == EncodeCount('$', |a|) + (a + CRLF + rest);
    CountLine('$', |a|, a + CRLF + rest);
    assert (a + CRLF + rest)[..|a|] == a && (a + CRLF + rest)[|a| + 2..] == rest;
  }

  lemma ReadCutArg(a: string, k: nat)
    requires |a| < LIMIT && k < |EncodeArg(a)|
    ensures ReadArg(EncodeArg(a)[..k]) == Failed(Eof)
  {
    hide Atoi, CString, Line, EncodeCount;
    var head := EncodeCount('$', |a|);
    var s := EncodeArg(a)[..k];
    if k == 0 {
    } else if k < |head| {
      assert s == head[..k];
      CutLine('$', |a|, k);
      CutNumber(|a|, k - 1);
    } else {
      assert s == head + (a + CRLF)[..k - |head|];
      CountLine('$', |a|, (a + CRLF)[..k - |head|]);
    }
  }

  lemma {:induction false} ReadWholeArgs(args: seq<string>, rest: string)
    requires forall i :: 0 <= i < |args| ==> |args[i]| < LIMIT
    ensures ReadArgs(EncodeArgs(args) + rest, |args|) == Got(args, rest)
  {
    hide ReadArg, EncodeArg;
    if args == [] {
      assert EncodeArgs(args) + rest == rest;
    } else {
      assert EncodeArgs(args) + rest == EncodeArg(args[0]) + (EncodeArgs(args[1..]) + rest);
      ReadWholeArg(args[0], EncodeArgs(args[1..]) + rest);
      ReadWholeArgs(args[1..], rest);
      assert [args[0]] + args[1..] == args;
    }
  }

  lemma {:induction false} ReadCutArgs(args: seq<string>, k: nat)
    requires (forall i :: 0 <= i < |args| ==> |args[i]| < LIMIT) && k < |EncodeArgs(args)|
    ensures ReadArgs(EncodeArgs(args)[..k], |args|) == Failed(Eof)
  {
    hide ReadArg, EncodeArg;
    var first := EncodeArg(args[0]);
    var s := EncodeArgs(args)[..k];
    if k < |first| {
      assert s == first[..k];
      ReadCutArg(args[0], k);
    } else {
      assert s == first + EncodeArgs(args[1..])[..k - |first|];
      ReadWholeArg(args[0], EncodeArgs(args[1..])[..k - |first|]);
      ReadCutArgs(args[1..], k - |first|);
    }
  }

  // ---- commands ----

  lemma ReadWholeCommand(c: Command, rest: string)
    requires Fits(c)
    ensures Encode(c) + rest != [] && ReadCommand(Encode(c) + rest) == Got(c, rest)
  {
    hide Atoi, CString, Line, EncodeCount, ReadArgs, EncodeArgs, HitsEnd;
    assert Encode(c) + rest == EncodeCount('*', |c|) + (EncodeArgs(c) + rest);
    CountLine('*', |c|, EncodeArgs(c) + rest);
    ReadWholeArgs(c, rest);
  }

  lemma ReadCutCommand(c: Command, k: nat)
    requires Fits(c) && 0 < k < |Encode(c)|
    ensures ReadCommand(Encode(c)[..k]) == Failed(Eof)
  {
    hide Atoi, CString, Line, EncodeCount, ReadArgs, EncodeArgs, HitsEnd;
    var head := EncodeCount('*', |c|);
    var s := Encode(c)[..k];
    if k < |head| {
      assert s == head[..k];
      CutLine('*', |c|, k);
      CutNumber(|c|, k - 1);
      assert s[|Line(s)|..] == [];
      if k > 1 { NoArgs(Atoi(CString(s[1..]))); }
    } else {
      assert s == head + EncodeArgs(c)[..k - |head|];
      CountLine('*', |c|, EncodeArgs(c)[..k - |head|]);
      ReadCutArgs(c, k - |head|);
    }
  }

  lemma NoArgs(argc: nat)
    requires argc >= 1
    ensures ReadArgs([], argc) == Failed(Eof)
  {
  }

  // ---- logs ----

  /** How many whole commands the first n bytes of a log hold. */
  function WholeIn(log: seq<Command>, n: nat): (k: nat)
    ensures k <= |log|
  {
    if log == [] || n < |Encode(log[0])| then 0 else 1 + WholeIn(log[1..], n - |Encode(log[0])|)
  }

  /** The count is the largest: what is executed fits, one more command would not. */
  lemma {:induction false} WholeInIsLongest(log: seq<Command>, n: nat)
    requires n <= |EncodeLog(log)|
    ensures var k := WholeIn(log, n);
      && |EncodeLog(log[..k])| <= n && (k < |log| ==> n < |EncodeLog(log[..k + 1])|)
      && (k == |log| ==> n == |EncodeLog(log)|)
  {
    hide Encode;
    var k := WholeIn(log, n);
    if log == [] {
      assert log[..0] == log;
    } else if n < |Encode(log[0])| {
      assert log[..0] == [] && log[..1] == [log[0]];
      assert EncodeLog([log[0]]) == Encode(log[0]) + EncodeLog([]);
    } else {
      WholeInIsLongest(log[1..], n - |Encode(log[0])|);
      assert log[..k][1..] == log[1..][..k - 1];
      if k < |log| { assert log[..k + 1][1..] == log[1..][..k]; }
    }
  }

  lemma {:induction false} PrefixFrom(log: seq<Command>, n: nat, at: nat)
    requires AllFit(log) && n <= |EncodeLog(log)|
    ensures var k := WholeIn(log, n);
      LoadFrom(EncodeLog(log)[..n], at) ==
        Loaded(log[..k], at + |EncodeLog(log[..k])|, if n == |EncodeLog(log[..k])| then Whole else Cut)
  {
    hide ReadCommand, Encode, Fits;
    var s := EncodeLog(log)[..n];
    var k := WholeIn(log, n);
    if n == 0 {
      FirstIsLong(log);
      assert log[..0] == [] && s == [];
    } else {
      var first, c := Encode(log[0]), log[0];
      if n < |first| {
        assert s == first[..n] && log[..0] == [];
        ReadCutCommand(c, n);
      } else {
        assert s == first + EncodeLog(log[1..])[..n - |first|];
        ReadWholeCommand(c, EncodeLog(log[1..])[..n - |first|]);
        PrefixFrom(log[1..], n - |first|, at + |first|);
        assert log[..k][1..] == log[1..][..k - 1];
        assert [c] + log[1..][..k - 1] == log[..k];
      }
    }
  }

  lemma FirstIsLong(log: seq<Command>)
    ensures WholeIn(log, 0) == 0
  {
    if log != [] { assert |Encode(log[0])| > 0; }
  }

  /** Of a log cut after n bytes the loader executes the longest sequence of whole
      commands, and the truncation offset is their encoded length. */
  lemma PrefixLoads(log: seq<Command>, n: nat)
    requires AllFit(log) && n <= |EncodeLog(log)|
    ensures var k, l := WholeIn(log, n), Load(EncodeLog(log)[..n]);
      && l.executed == log[..k] && l.validUpTo == |EncodeLog(log[..k])|
      && l.end == (if n == l.validUpTo then Whole else Cut)
      && l.validUpTo <= n && (k < |log| ==> n < |EncodeLog(log[..k + 1])|)
  {
    hide LoadFrom, WholeIn, EncodeLog, AllFit;
    PrefixFrom(log, n, 0);
    WholeInIsLongest(log, n);
  }

  /** On the whole log, loading inverts encoding. */
  lemma LoadInvertsEncode(log: seq<Command>)
    requires AllFit(log)
    ensures Load(EncodeLog(log)) == Loaded(log, |EncodeLog(log)|, Whole)
  {
    hide Load, LoadFrom, WholeIn, EncodeLog, AllFit;
    var n := |EncodeLog(log)|;
    var k := WholeIn(log, n);
    PrefixLoads(log, n);
    EncodePrefix(log, if k < |log| then k + 1 else k);
    assert EncodeLog(log)[..n] == EncodeLog(log);
    assert log[..|log|] == log;
  }

  lemma {:induction false} EncodePrefix(log: seq<Command>, k: nat)
    requires k <= |log|
    ensures |EncodeLog(log[..k])| <= |EncodeLog(log)|
  {
    hide Encode;
    if k > 0 {
      EncodePrefix(log[1..], k - 1);
      assert log[..k][1..] == log[1..][..k - 1];
    }
  }

  // ---- SELECT ----

  /** A command and the database it ran in. */
  datatype Entry = Entry(db: nat, command: Command)

  function Select(db: nat): Command {
    ["SELECT", Dec(db)]
  }

  /** What `feedAppendOnlyFile` logs for one command; -1 forces a SELECT. */
  function Feed(selected: int, e: Entry): seq<Command> {
    if selected == e.db then [e.command] else [Select(e.db), e.command]
  }

  function FeedAll(selected: int, entries: seq<Entry>): seq<Command>
    decreases |entries|
  {
    if entries == [] then [] else Feed(selected, entries[0]) + FeedAll(entries[0].db, entries[1..])
  }

  predicate IsSelect(c: Command) {
    |c| == 2 && c[0] == "SELECT"
  }

  /** Replaying: SELECT changes the database, every other command runs in it. */
  function Replay(db: int, log: seq<Command>): seq<(int, Command)>
    decreases |log|
  {
    if log == [] then []
    else if IsSelect(log[0]) then Replay(Atoi(log[0][1]), log[1..])
    else [(db, log[0])] + Replay(db, log[1..])
  }

  function Ran(entries: seq<Entry>): seq<(int, Command)> {
    seq(|entries|, i requires 0 <= i < |entries| => (entries[i].db, entries[i].command))
  }

  /** A log that starts with no database selected replays every command where it ran,
      whatever database the replay is in: so it may follow any other log. */
  lemma {:induction false} ReplaysWhereItRan(selected: int, entries: seq<Entry>, db: int)
    requires forall i :: 0 <= i < |entries| ==> !IsSelect(entries[i].command)
    requires selected == -1 || selected == db
    ensures Replay(db, FeedAll(selected, entries)) == Ran(entries)
    decreases |entries|
  {
    if entries != [] {
      var e, rest := entries[0], FeedAll(entries[0].db, entries[1..]);
      ReplaysWhereItRan(e.db, entries[1..], e.db);
      assert Ran(entries) == [(e.db as int, e.command)] + Ran(entries[1..]);
      OneRuns(e, rest, db);
      if selected != e.db {
        AtoiOfDec(e.db, "");
        assert Dec(e.db) + "" == Dec(e.db);
        var log := [Select(e.db), e.command] + rest;
        assert log[1..] == [e.command] + rest;
        OneRuns(e, rest, e.db);
      }
    }
  }

  lemma OneRuns(e: Entry, rest: seq<Command>, db: int)
    requires !IsSelect(e.command)
    ensures Replay(db, [e.command] + rest) == [(db, e.command)] + Replay(db, rest)
  {
    assert ([e.command] + rest)[1..] == rest;
  }
}
