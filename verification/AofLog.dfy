/** The append-only log: commands encoded one after another, and the loader that
    reads them back, also from a file that was cut off.  A character stands for a byte. */
module AofLog {
  import opened Basics
  import opened Decimal

  type Command = seq<string>

  const CRLF: string := "\r\n"

  /** The size of the loader's line buffer, less the terminator. */
  const LINE_MAX: nat := 127

  // ---- writing ----

  function EncodeCount(prefix: char, n: nat): string {
    [prefix] + Dec(n) + CRLF
  }

  function EncodeArg(a: string): string {
    EncodeCount('$', |a|) + a + CRLF
  }

  function EncodeArgs(args: seq<string>): string {
    if args == [] then "" else EncodeArg(args[0]) + EncodeArgs(args[1..])
  }

  function Encode(c: Command): string {
    EncodeCount('*', |c|) + EncodeArgs(c)
  }

  function EncodeLog(log: seq<Command>): string {
    if log == [] then "" else Encode(log[0]) + EncodeLog(log[1..])
  }

  /** `catAppendOnlyGenericCommand`. */
  method CatCommand(dst: string, c: Command) returns (r: string)
    ensures r == dst + Encode(c)
  {
    r := dst + EncodeCount('*', |c|);
    ghost var head := r;
    assert c[0..] == c;
    for j := 0 to |c|
      invariant r + EncodeArgs(c[j..]) == head + EncodeArgs(c)
    {
      assert c[j..][0] == c[j] && c[j..][1..] == c[j + 1..];
      r := r + EncodeCount('$', |c[j]|);
      r := r + c[j];
      r := r + CRLF;
      assert r + EncodeArgs(c[j + 1..]) == head + EncodeArgs(c);
    }
    assert r + "" == r;
  }

  // ---- reading ----

  /** How far `fgets` reads: to the newline, to the end, or until the buffer is full. */
  function LineLength(s: string, room: nat): (n: nat)
    ensures n <= |s| && n <= room
  {
    if s == [] || room == 0 then 0
    else if s[0] == '\n' then 1
    else 1 + LineLength(s[1..], room - 1)
  }

  function Line(s: string): string {
    s[..LineLength(s, LINE_MAX)]
  }

  /** Did `fgets` run into the end of the file? */
  predicate HitsEnd(s: string) {
    |Line(s)| == |s| && |s| < LINE_MAX && '\n' !in s
  }

  /** Why a read failed: the file ended, the text is malformed, or the server gives up. */
  datatype Failure = Eof | BadFormat | Unreadable

  datatype Read<+T> = Got(value: T, rest: string) | Failed(why: Failure)

  /** One argument.  A negative length is no size a string can have. */
  function ReadArg(s: string): (r: Read<string>)
    ensures r.Got? ==> |r.rest| < |s|
  {
    if s == [] then Failed(Eof)
    else
      var line := Line(s);
      var rest := s[|line|..];
      if line[0] != '$' then Failed(BadFormat)
      else
        var len := Atoi(CString(line[1..]));
        if len < 0 then Failed(Unreadable)
        else if len > |rest| || |rest| - len < 2 then Failed(Eof)
        else Got(rest[..len], rest[len + 2..])
  }

  function Extend(args: seq<string>, r: Read<seq<string>>): Read<seq<string>> {
    if r.Got? then Got(args + r.value, r.rest) else r
  }

  function ReadArgs(s: string, argc: nat): (r: Read<seq<string>>)
    ensures r.Got? ==> |r.value| == argc && |r.rest| <= |s| - argc
    decreases argc
  {
    if argc == 0 then Got([], s)
    else
      var a := ReadArg(s);
      if a.Got? then Extend([a.value], ReadArgs(a.rest, argc - 1)) else Failed(a.why)
  }

  /** One command; s is not empty. */
  function ReadCommand(s: string): (r: Read<Command>)
    requires s != []
    ensures r.Got? ==> |r.rest| < |s|
  {
    var line := Line(s);
    var rest := s[|line|..];
    if line[0] != '*' then Failed(BadFormat)
    else if |line| == 1 || line[1] == NUL then Failed(if HitsEnd(s) then Eof else Unreadable)
    else
      var argc := Atoi(CString(line[1..]));
      if argc < 1 then Failed(BadFormat) else ReadArgs(rest, argc)
  }

  /** How the loop ended: at the end of the file, in the middle of a command, or with
      an error the server exits on. */
  datatype End = Whole | Cut | Corrupt

  datatype Loaded = Loaded(executed: seq<Command>, validUpTo: nat, end: End)

  function After(executed: seq<Command>, l: Loaded): Loaded {
    l.(executed := executed + l.executed)
  }

  function EndOf(why: Failure): End {
    if why == Eof then Cut else Corrupt
  }

  function LoadFrom(s: string, at: nat): Loaded
    decreases |s|
  {
    if s == [] then Loaded([], at, Whole)
    else
      var c := ReadCommand(s);
      if c.Got? then After([c.value], LoadFrom(c.rest, at + |s| - |c.rest|))
      else Loaded([], at, EndOf(c.why))
  }

  function Load(file: string): Loaded {
    LoadFrom(file, 0)
  }

  lemma ExtendTwice(a: seq<string>, b: seq<string>, r: Read<seq<string>>)
    ensures Extend(a, Extend(b, r)) == Extend(a + b, r) && Extend([], r) == r
  {
    if r.Got? { assert a + (b + r.value) == a + b + r.value && [] + r.value == r.value; }
  }

  /** The loop of `loadAppendOnlyFile` over the arguments of one command. */
  method ReadArgsLoop(s: string, argc: nat) returns (r: Read<seq<string>>)
    ensures r == ReadArgs(s, argc)
  {
    hide ReadArg;
    var args, rest := [], s;
    ExtendTwice([], [], ReadArgs(s, argc));
    for j := 0 to argc
      invariant ReadArgs(s, argc) == Extend(args, ReadArgs(rest, argc - j))
    {
      var a := ReadArg(rest);
      if a.Failed? { return Failed(a.why); }
      ExtendTwice(args, [a.value], ReadArgs(a.rest, argc - j - 1));
      args, rest := args + [a.value], a.rest;
    }
    assert args + [] == args;
    return Got(args, rest);
  }

  lemma AfterTwice(a: seq<Command>, b: seq<Command>, l: Loaded)
    ensures After(a, After(b, l)) == After(a + b, l) && After([], l) == l
  {
    assert a + (b + l.executed) == a + b + l.executed;
  }

  /** The next command of the file. */
  method NextCommand(s: string) returns (r: Read<Command>)
    requires s != []
    ensures r == ReadCommand(s)
  {
    hide ReadArgs, LineLength, Atoi, CString;
    var line := Line(s);
    assert |line| > 0 by { LineStarts(s); }
    if line[0] != '*' { return Failed(BadFormat); }
    if |line| == 1 || line[1] == NUL { return Failed(if HitsEnd(s) then Eof else Unreadable); }
    var argc := Atoi(CString(line[1..]));
    if argc < 1 { return Failed(BadFormat); }
    r := ReadArgsLoop(s[|line|..], argc);
  }

  lemma LineStarts(s: string)
    requires s != []
    ensures |Line(s)| > 0
  {
  }

  method LoadAppendOnlyFile(file: string) returns (r: Loaded)
    ensures r == Load(file)
  {
    hide ReadCommand;
    var executed, validUpTo, rest := [], 0, file;
    AfterTwice([], [], Load(file));
    while rest != []
      invariant validUpTo + |rest| == |file|
      invariant Load(file) == After(executed, LoadFrom(rest, validUpTo))
      decreases |rest|
    {
      var c := NextCommand(rest);
      assert executed + [] == executed;
      if c.Failed? { return Loaded(executed, validUpTo, EndOf(c.why)); }
      var next := validUpTo + |rest| - |c.rest|;
      AfterTwice(executed, [c.value], LoadFrom(c.rest, next));
      executed, validUpTo, rest := executed + [c.value], next, c.rest;
    }
    assert executed + [] == executed;
    return Loaded(executed, validUpTo, Whole);
  }
}
