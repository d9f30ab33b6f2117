/** Splitting a command line into arguments, and the quoting that it undoes. */
module Tokenizer {

  const NUL: char := '\0'

  predicate IsQuote(c: char) {
    c == '\"' || c == '\''
  }

  predicate IsBlank(c: char) {
    c == ' ' || c == '\t'
  }

  predicate IsSpace(c: char) {
    IsBlank(c) || c == '\n' || c == '\r'
  }

  // ---------- what the arguments of a line are ----------

  datatype Mode = Between | InText | InQuotes

  /** Mode and current argument after a character, and the argument it finishes, if any. */
  datatype Progress = Progress(mode: Mode, cur: string, finished: seq<string>)

  function Next(mode: Mode, cur: string, c: char): Progress {
    match mode
    case InQuotes => if IsQuote(c) then Progress(InText, cur, []) else Progress(InQuotes, cur + [c], [])
    case InText =>
      if IsQuote(c) then Progress(InQuotes, cur, [])
      else if IsSpace(c) then Progress(Between, [], [cur])
      else Progress(InText, cur + [c], [])
    case Between =>
      if IsQuote(c) then Progress(InQuotes, [], [])
      else if IsSpace(c) then Progress(Between, [], [])
      else Progress(InText, [c], [])
  }

  /** The arguments in s when cur of an argument has been read in the given mode. */
  function Arguments(s: string, mode: Mode, cur: string): seq<string>
    decreases |s|
  {
    if s == [] then if mode == Between then [] else [cur]
    else var n := Next(mode, cur, s[0]); n.finished + Arguments(s[1..], n.mode, n.cur)
  }

  // ---------- the output buffer ----------

  /** Strings one after the other, each with its terminator. */
  function Terminated(ts: seq<string>): string {
    if ts == [] then [] else Terminated(ts[..|ts| - 1]) + ts[|ts| - 1] + [NUL]
  }

  predicate Clean(s: string) {
    NUL !in s
  }

  /** The string that starts at position k, up to its terminator. */
  function StringAt(s: string, k: nat): string
    requires k <= |s|
    decreases |s| - k
  {
    if k == |s| || s[k] == NUL then [] else [s[k]] + StringAt(s, k + 1)
  }

  lemma {:induction false} StringAtPrefix(s: string, k: nat, t: string)
    requires k + |t| < |s| && Clean(t) && s[k..k + |t|] == t && s[k + |t|] == NUL
    ensures StringAt(s, k) == t
    decreases |t|
  {
    if t != [] {
      assert s[k] == t[0] && t[0] in t;
      assert s[k + 1..k + |t|] == t[1..];
      StringAtPrefix(s, k + 1, t[1..]);
    }
  }

  /** Where string k of the buffer starts. */
  function Start(ts: seq<string>, k: nat): nat
    requires k <= |ts|
  {
    |Terminated(ts[..k])|
  }

  lemma TerminatedLast(ts: seq<string>, t: string)
    ensures Terminated(ts + [t]) == Terminated(ts) + t + [NUL]
  {
    assert (ts + [t])[..|ts|] == ts;
  }

  lemma {:induction false} TerminatedGrows(ts: seq<string>, k: nat)
    requires k < |ts|
    ensures Terminated(ts[..k]) + ts[k] + [NUL] <= Terminated(ts)
    decreases |ts|
  {
    var n := |ts| - 1;
    if k < n {
      TerminatedGrows(ts[..n], k);
      assert ts[..n][..k] == ts[..k];
    }
  }

  /** Every string is found at its start. */
  lemma StringsFound(ts: seq<string>, buf: string, k: nat)
    requires k < |ts| && Terminated(ts) <= buf && Clean(ts[k])
    ensures Start(ts, k) <= |buf| && StringAt(buf, Start(ts, k)) == ts[k]
  {
    TerminatedGrows(ts, k);
    var a, t := Terminated(ts[..k]), ts[k];
    assert a + t + [NUL] <= buf;
    assert buf[|a|..|a| + |t|] == (a + t + [NUL])[|a|..|a| + |t|] == t;
    StringAtPrefix(buf, |a|, t);
  }

  lemma {:induction false} ArgumentsClean(s: string, mode: Mode, cur: string, k: nat)
    requires Clean(s) && Clean(cur) && k < |Arguments(s, mode, cur)|
    ensures Clean(Arguments(s, mode, cur)[k])
    decreases |s|
  {
    if s != [] {
      var n := Next(mode, cur, s[0]);
      assert s[0] in s && Clean(s[1..]) && Clean(n.cur);
      if k >= |n.finished| {
        ArgumentsClean(s[1..], n.mode, n.cur, k - |n.finished|);
      }
    }
  }

  // ---------- one character ----------

  lemma ArgumentsStep(s: string, i: nat, mode: Mode, cur: string, done: seq<string>, n: Progress)
    requires i < |s| && n == Next(mode, cur, s[i])
    ensures done + Arguments(s[i..], mode, cur) == (done + n.finished) + Arguments(s[i + 1..], n.mode, n.cur)
  {
    var rest := Arguments(s[i + 1..], n.mode, n.cur);
    assert s[i..][1..] == s[i + 1..];
    assert done + (n.finished + rest) == (done + n.finished) + rest;
  }

  // ---------- the scanner ----------

  /** The flags of the scanner name a mode. */
  ghost predicate InMode(mode: Mode, inQuotes: bool, inText: bool, inSpace: bool) {
    inText == (mode != Between) && inSpace == (mode == Between) && inQuotes == (mode == InQuotes)
  }

  function Begun(done: seq<string>, mode: Mode): nat {
    |done| + if mode == Between then 0 else 1
  }

  /** The starts of the finished arguments and of the current one. */
  function Starts(done: seq<string>, mode: Mode): (r: seq<nat>)
    ensures |r| == Begun(done, mode)
    ensures forall k :: 0 <= k < |r| ==> r[k] == Start(done, k)
  {
    seq(Begun(done, mode), k requires 0 <= k < Begun(done, mode) => Start(done, k))
  }

  lemma StartsFinish(done: seq<string>, cur: string)
    ensures Starts(done + [cur], Between) == Starts(done, InText)
  {
    forall k | 0 <= k < |done| + 1
      ensures Start(done + [cur], k) == Start(done, k)
    {
      assert (done + [cur])[..k] == done[..k];
    }
  }

  lemma StartsBegin(done: seq<string>, mode: Mode)
    requires mode != Between
    ensures Starts(done, mode) == Starts(done, Between) + [|Terminated(done)|]
  {
    assert done[..|done|] == done;
  }

  /** What has been written: finished arguments and the start of the current one. */
  ghost predicate Output(text: string, argv: seq<nat>, done: seq<string>, mode: Mode, cur: string) {
    text == Terminated(done) + cur && argv == Starts(done, mode) && (mode == Between ==> cur == [])
  }

  method Write(text: array<char>, j: nat, c: char)
    requires j < text.Length
    modifies text
    ensures text[..j + 1] == old(text[..j]) + [c]
  {
    text[j] := c;
  }

  method Begin(argv: array<nat>, argc: nat, at: nat)
    requires argc < argv.Length
    modifies argv
    ensures argv[..argc + 1] == old(argv[..argc]) + [at]
  {
    argv[argc] := at;
  }

  lemma WriteCurrent(text: string, argv: seq<nat>, done: seq<string>, mode: Mode, cur: string, c: char)
    requires Output(text, argv, done, mode, cur) && mode != Between
    ensures Output(text + [c], argv, done, mode, cur + [c])
  {
  }

  lemma BeginCurrent(text: string, argv: seq<nat>, done: seq<string>, mode: Mode)
    requires Output(text, argv, done, Between, []) && mode != Between
    ensures Output(text, argv + [|text|], done, mode, [])
  {
    StartsBegin(done, mode);
  }

  lemma FinishCurrent(text: string, argv: seq<nat>, done: seq<string>, cur: string)
    requires Output(text, argv, done, InText, cur)
    ensures Output(text + [NUL], argv, done + [cur], Between, [])
  {
    TerminatedLast(done, cur);
    StartsFinish(done, cur);
  }

  lemma SameStarts(text: string, argv: seq<nat>, done: seq<string>, mode: Mode, mode': Mode, cur: string)
    requires Output(text, argv, done, mode, cur) && mode != Between && mode' != Between
    ensures Output(text, argv, done, mode', cur)
  {
    assert Starts(done, mode) == Starts(done, mode');
  }

  /** Outside quotes, a quote or an ordinary character begins or continues an argument. */
  method FeedText(text: array<char>, argv: array<nat>, a: char, inSpace: bool, j: nat, argc: nat,
                  ghost done: seq<string>, ghost mode: Mode, ghost cur: string)
    returns (j': nat, argc': nat)
    requires j < text.Length && argc < argv.Length && !IsSpace(a)
    requires Output(text[..j], argv[..argc], done, mode, cur) && mode != InQuotes && inSpace == (mode == Between)
    modifies text, argv
    ensures j <= j' <= j + 1 && j' <= text.Length && argc' == (if inSpace then argc + 1 else argc)
    ensures Output(text[..j'], argv[..argc'], done, Next(mode, cur, a).mode, Next(mode, cur, a).cur)
  {
    ghost var t, v := text[..j], argv[..argc];
    argc', j' := argc, j;
    if inSpace {
      Begin(argv, argc, j);
      argc' := argc + 1;
      BeginCurrent(t, v, done, InText);
    }
    ghost var v' := argv[..argc'];
    assert Output(t, v', done, InText, cur);
    if IsQuote(a) {
      SameStarts(t, v', done, InText, InQuotes, cur);
    } else {
      Write(text, j, a);
      j' := j + 1;
      WriteCurrent(t, v', done, InText, cur, a);
    }
  }

  /** One character: flags, buffers and counters move on as the arguments do. */
  method Feed(text: array<char>, argv: array<nat>, a: char, inQuotes: bool, inText: bool, inSpace: bool, j: nat,
              argc: nat, ghost done: seq<string>, ghost mode: Mode, ghost cur: string)
    returns (inQuotes': bool, inText': bool, inSpace': bool, j': nat, argc': nat)
    requires j < text.Length && argc < argv.Length
    requires InMode(mode, inQuotes, inText, inSpace) && Output(text[..j], argv[..argc], done, mode, cur)
    modifies text, argv
    ensures j <= j' <= j + 1 && j' <= text.Length && argc' == (if inSpace && !inSpace' then argc + 1 else argc)
    ensures InMode(Next(mode, cur, a).mode, inQuotes', inText', inSpace')
    ensures var n := Next(mode, cur, a); Output(text[..j'], argv[..argc'], done + n.finished, n.mode, n.cur)
  {
    inQuotes', inText', inSpace', j', argc' := inQuotes, inText, inSpace, j, argc;
    ghost var t, v := text[..j], argv[..argc];
    assert done + [] == done;
    if inQuotes {
      if IsQuote(a) {
        inQuotes' := false;
        SameStarts(t, v, done, InQuotes, InText, cur);
      } else {
        Write(text, j, a);
        j' := j + 1;
        WriteCurrent(t, v, done, InQuotes, cur, a);
      }
    } else if IsSpace(a) {
      if inText {
        Write(text, j, NUL);
        j' := j + 1;
        FinishCurrent(t, v, done, cur);
      }
      inText', inSpace' := false, true;
    } else {
      inQuotes', inText', inSpace' := IsQuote(a), true, false;
      j', argc' := FeedText(text, argv, a, inSpace, j, argc, done, mode, cur);
    }
  }

  lemma LastTerminator(text: string, argv: seq<nat>, done: seq<string>, mode: Mode, cur: string, all: seq<string>)
    requires Output(text, argv, done, mode, cur) && all == done + Arguments([], mode, cur)
    ensures Terminated(all) <= text + [NUL] && argv == Starts(all, Between)
  {
    if mode == Between {
      assert all == done && text + [NUL] == Terminated(done) + [NUL];
    } else {
      assert all == done + [cur] && text + [NUL] == Terminated(done) + cur + [NUL];
      TerminatedLast(done, cur);
      StartsFinish(done, cur);
      assert Starts(done, mode) == Starts(done, InText);
    }
  }

  /** buf holds all arguments, each where argv says. */
  ghost predicate Found(buf: string, argv: seq<nat>, all: seq<string>) {
    |argv| == |all| && forall k :: 0 <= k < |all| ==> FoundAt(buf, argv[k], all[k])
  }

  predicate FoundAt(buf: string, at: nat, t: string) {
    at <= |buf| && StringAt(buf, at) == t
  }

  lemma AllFound(cmd: string, text: string, argv: seq<nat>, done: seq<string>, mode: Mode, cur: string,
                 all: seq<string>)
    requires Clean(cmd) && all == Arguments(cmd, Between, [])
    requires Output(text, argv, done, mode, cur) && all == done + Arguments([], mode, cur)
    ensures Found(text + [NUL], argv, all)
  {
    LastTerminator(text, argv, done, mode, cur, all);
    forall k | 0 <= k < |all|
      ensures FoundAt(text + [NUL], argv[k], all[k])
    {
      ArgumentsClean(cmd, Between, [], k);
      StringsFound(all, text + [NUL], k);
    }
  }

  /** Reads the whole line. */
  method Scan(cmd: string, text: array<char>, argv: array<nat>)
    returns (j: nat, argc: nat, ghost done: seq<string>, ghost mode: Mode, ghost cur: string)
    requires argv.Length == (|cmd| + 2) / 2 + 1 && text.Length == |cmd| + 2
    modifies text, argv
    ensures j <= |cmd| && argc <= (|cmd| + 1) / 2
    ensures Output(text[..j], argv[..argc], done, mode, cur)
    ensures Arguments(cmd, Between, []) == done + Arguments([], mode, cur)
  {
    argc := 0;
    argv[argc] := 0;
    var inQuotes, inText, inSpace := false, false, true;
    var i := 0;
    j, done, cur, mode := 0, [], [], Between;
    assert cmd[0..] == cmd;
    while i < |cmd|
      invariant 0 <= i <= |cmd| && j <= i && 2 * argc <= i + (if inSpace then 0 else 1)
      invariant InMode(mode, inQuotes, inText, inSpace)
      invariant Output(text[..j], argv[..argc], done, mode, cur)
      invariant Arguments(cmd, Between, []) == done + Arguments(cmd[i..], mode, cur)
    {
      ghost var n := Next(mode, cur, cmd[i]);
      ArgumentsStep(cmd, i, mode, cur, done, n);
      inQuotes, inText, inSpace, j, argc :=
        Feed(text, argv, cmd[i], inQuotes, inText, inSpace, j, argc, done, mode, cur);
      done, mode, cur := done + n.finished, n.mode, n.cur;
      i := i + 1;
    }
    assert cmd[i..] == [];
  }

  /** Splits cmd into arguments: argv[k] is where argument k starts in text, and after the last
      stands the null pointer, given as a place past the end of text. All pointers and all
      characters stay within the sizes computed from the length of the line. */
  method Split(cmd: string) returns (argv: array<nat>, text: array<char>, argc: nat, written: nat)
    requires Clean(cmd)
    ensures fresh(argv) && argv.Length == (|cmd| + 2) / 2 + 1 && fresh(text) && text.Length == |cmd| + 2
    ensures argc <= (|cmd| + 1) / 2 && written <= |cmd| + 1
    ensures Found(text[..written], argv[..argc], Arguments(cmd, Between, [])) && argv[argc] == text.Length
  {
    argv := new nat[(|cmd| + 2) / 2 + 1];
    text := new char[|cmd| + 2];
    ghost var done, mode, cur;
    written, argc, done, mode, cur := Scan(cmd, text, argv);
    AllFound(cmd, text[..written], argv[..argc], done, mode, cur, Arguments(cmd, Between, []));
    Write(text, written, NUL);
    written := written + 1;
    ghost var starts := argv[..argc];
    argv[argc] := text.Length;
    assert argv[..argc] == starts;
  }

  // ---------- quoting ----------

  predicate HasBlank(t: string) {
    exists i :: 0 <= i < |t| && IsBlank(t[i])
  }

  predicate HasQuote(t: string) {
    exists i :: 0 <= i < |t| && IsQuote(t[i])
  }

  /** An argument as it is exported. The leading arguments are left bare when they contain
      quotes themselves; the trailing ones are not. */
  function Quoted(t: string, leading: bool): string {
    if HasBlank(t) && !(leading && HasQuote(t)) then ['\"'] + t + ['\"'] else t
  }

  function Export(ts: seq<string>, leading: bool): string {
    if ts == [] then [] else Quoted(ts[0], leading) + [' '] + Export(ts[1..], leading)
  }

  predicate HasLineEnd(t: string) {
    exists i :: 0 <= i < |t| && (t[i] == '\n' || t[i] == '\r')
  }

  /** Not empty, no quotes, and a line end only together with a blank. */
  predicate Exportable(t: string) {
    t != [] && !HasQuote(t) && (HasLineEnd(t) ==> HasBlank(t))
  }

  lemma {:induction false} QuotedPart(t: string, cur: string, rest: string)
    requires !HasQuote(t)
    ensures Arguments(t + ['\"'] + rest, InQuotes, cur) == Arguments(rest, InText, cur + t)
    decreases |t|
  {
    var s := t + ['\"'] + rest;
    if t == [] {
      assert s == ['\"'] + rest && s[1..] == rest && cur + t == cur;
    } else {
      assert !IsQuote(t[0]) && !HasQuote(t[1..]);
      assert s[1..] == t[1..] + ['\"'] + rest && cur + t == (cur + [t[0]]) + t[1..];
      QuotedPart(t[1..], cur + [t[0]], rest);
    }
  }

  predicate Plain(t: string) {
    forall i :: 0 <= i < |t| ==> !IsQuote(t[i]) && !IsSpace(t[i])
  }

  lemma {:induction false} PlainPart(t: string, cur: string, rest: string)
    requires Plain(t)
    ensures Arguments(t + [' '] + rest, InText, cur) == [cur + t] + Arguments(rest, Between, [])
    decreases |t|
  {
    var s := t + [' '] + rest;
    if t == [] {
      assert s == [' '] + rest && s[1..] == rest && cur + t == cur;
    } else {
      assert !IsQuote(t[0]) && !IsSpace(t[0]) && Plain(t[1..]);
      assert s[1..] == t[1..] + [' '] + rest && cur + t == (cur + [t[0]]) + t[1..];
      PlainPart(t[1..], cur + [t[0]], rest);
    }
  }

  lemma FirstCharacter(c: char, rest: string, mode: Mode, cur: string, n: Progress)
    requires n == Next(mode, cur, c)
    ensures Arguments([c] + rest, mode, cur) == n.finished + Arguments(rest, n.mode, n.cur)
  {
    assert ([c] + rest)[1..] == rest;
    ArgumentsStep([c] + rest, 0, mode, cur, [], n);
    assert ([c] + rest)[0..] == [c] + rest;
  }

  lemma QuotedExported(t: string, rest: string)
    requires !HasQuote(t)
    ensures Arguments(['\"'] + (t + ['\"'] + ([' '] + rest)), Between, []) == [t] + Arguments(rest, Between, [])
  {
    var more := [' '] + rest;
    FirstCharacter('\"', t + ['\"'] + more, Between, [], Progress(InQuotes, [], []));
    QuotedPart(t, [], more);
    assert [] + t == t;
    FirstCharacter(' ', rest, InText, t, Progress(Between, [], [t]));
  }

  lemma PlainExported(t: string, rest: string)
    requires t != [] && Plain(t)
    ensures [t[0]] + t[1..] == t
    ensures Arguments([t[0]] + (t[1..] + [' '] + rest), Between, []) == [t] + Arguments(rest, Between, [])
  {
    var more := t[1..] + [' '] + rest;
    FirstCharacter(t[0], more, Between, [], Progress(InText, [t[0]], []));
    PlainPart(t[1..], [t[0]], rest);
    assert [t[0]] + t[1..] == t;
  }

  lemma OneExported(t: string, leading: bool, rest: string)
    requires Exportable(t)
    ensures Arguments(Quoted(t, leading) + [' '] + rest, Between, []) == [t] + Arguments(rest, Between, [])
  {
    if HasBlank(t) {
      Regroup(['\"'], t, ['\"'], [' '], rest);
      QuotedExported(t, rest);
    } else {
      PlainExported(t, rest);
      Regroup([t[0]], t[1..], [' '], [], rest);
    }
  }

  lemma Regroup(a: string, b: string, c: string, d: string, e: string)
    ensures (a + b + c) + d + e == a + (b + c + (d + e))
    ensures d == [] && |a| == 1 ==> (a + b) + c + e == a + (b + c + e)
  {
  }

  /** Splitting undoes exporting. */
  lemma {:induction false} RoundTrip(ts: seq<string>, leading: bool)
    requires forall i :: 0 <= i < |ts| ==> Exportable(ts[i])
    ensures Arguments(Export(ts, leading), Between, []) == ts
    decreases |ts|
  {
    if ts != [] {
      OneExported(ts[0], leading, Export(ts[1..], leading));
      RoundTrip(ts[1..], leading);
    }
  }

  // ---------- and only then ----------

  lemma NextHasNoQuote(mode: Mode, cur: string, c: char)
    requires !HasQuote(cur)
    ensures !HasQuote(Next(mode, cur, c).cur)
    ensures forall j :: 0 <= j < |Next(mode, cur, c).finished| ==> !HasQuote(Next(mode, cur, c).finished[j])
  {
  }

  lemma {:induction false} NoQuotesLeft(s: string, mode: Mode, cur: string, k: nat)
    requires !HasQuote(cur) && k < |Arguments(s, mode, cur)|
    ensures !HasQuote(Arguments(s, mode, cur)[k])
    decreases |s|
  {
    if s != [] {
      var n := Next(mode, cur, s[0]);
      NextHasNoQuote(mode, cur, s[0]);
      var rest := Arguments(s[1..], n.mode, n.cur);
      assert Arguments(s, mode, cur) == n.finished + rest by {
        ArgumentsStep(s, 0, mode, cur, [], n);
        assert s[0..] == s;
      }
      if k >= |n.finished| {
        NoQuotesLeft(s[1..], n.mode, n.cur, k - |n.finished|);
      }
    }
  }

  /** Neither quotes nor blanks. */
  predicate Bare(t: string) {
    !HasQuote(t) && !HasBlank(t)
  }

  /** Split at its line ends, a bare string gives plain arguments that are not empty. */
  lemma {:induction false} BarePieces(t: string, mode: Mode, cur: string, rest: string) returns (ps: seq<string>)
    requires Bare(t) && mode != InQuotes && (if mode == Between then cur == [] else cur != [] && Plain(cur))
    ensures Arguments(t + [' '] + rest, mode, cur) == ps + Arguments(rest, Between, [])
    ensures forall i :: 0 <= i < |ps| ==> ps[i] != [] && Plain(ps[i])
    decreases |t|
  {
    if t == [] {
      var n := Next(mode, cur, ' ');
      assert t + [' '] + rest == [' '] + rest;
      FirstCharacter(' ', rest, mode, cur, n);
      ps := n.finished;
    } else {
      var c, n := t[0], Next(mode, cur, t[0]);
      assert !IsQuote(c) && !IsBlank(c) && Bare(t[1..]);
      assert t + [' '] + rest == [c] + (t[1..] + [' '] + rest);
      FirstCharacter(c, t[1..] + [' '] + rest, mode, cur, n);
      var qs := BarePieces(t[1..], n.mode, n.cur, rest);
      ps := n.finished + qs;
      assert n.finished + (qs + Arguments(rest, Between, [])) == ps + Arguments(rest, Between, []);
    }
  }

  /** What comes back from arguments without quotes is exportable. */
  lemma {:induction false} ExportableBack(ts: seq<string>, leading: bool, k: nat)
    requires (forall i :: 0 <= i < |ts| ==> !HasQuote(ts[i])) && k < |Arguments(Export(ts, leading), Between, [])|
    ensures Exportable(Arguments(Export(ts, leading), Between, [])[k])
    decreases |ts|
  {
    if ts != [] {
      var t, rest := ts[0], Export(ts[1..], leading);
      var ps := [t];
      if HasBlank(t) {
        OneExported(t, leading, rest);
      } else {
        ps := BarePieces(t, Between, [], rest);
      }
      if k < |ps| {
        assert Arguments(Export(ts, leading), Between, [])[k] == ps[k];
      } else {
        ExportableBack(ts[1..], leading, k - |ps|);
      }
    }
  }

  /** Exported arguments come back exactly when each of them is exportable. */
  lemma RoundTripIff(ts: seq<string>, leading: bool)
    ensures Arguments(Export(ts, leading), Between, []) == ts <==> forall i :: 0 <= i < |ts| ==> Exportable(ts[i])
  {
    var back := Arguments(Export(ts, leading), Between, []);
    if forall i :: 0 <= i < |ts| ==> Exportable(ts[i]) {
      RoundTrip(ts, leading);
    } else if back == ts {
      forall i | 0 <= i < |ts|
        ensures !HasQuote(ts[i])
      {
        NoQuotesLeft(Export(ts, leading), Between, [], i);
      }
      forall i | 0 <= i < |ts|
        ensures Exportable(ts[i])
      {
        ExportableBack(ts, leading, i);
      }
    }
  }

  // ---------- quotes inside an argument ----------

  /** A stretch of an argument: as it is, or between quotation marks, of which any ends any. */
  datatype Piece = Bare(text: string) | Marked(open: char, text: string, close: char)

  predicate IsMark(c: char) {
    c == '\"' || c == '\''
  }

  function Spelled(p: Piece): string {
    match p
    case Bare(t) => t
    case Marked(a, t, b) => [a] + t + [b]
  }

  function Written(ps: seq<Piece>): string {
    if ps == [] then [] else Spelled(ps[0]) + Written(ps[1..])
  }

  function Joined(ps: seq<Piece>): string {
    if ps == [] then [] else ps[0].text + Joined(ps[1..])
  }

  predicate Spellable(p: Piece) {
    match p
    case Bare(t) => Plain(t)
    case Marked(a, t, b) => IsMark(a) && IsMark(b) && !HasQuote(t)
  }

  lemma {:induction false} BarePart(t: string, cur: string, rest: string)
    requires Plain(t)
    ensures Arguments(t + rest, InText, cur) == Arguments(rest, InText, cur + t)
    decreases |t|
  {
    if t == [] {
      assert t + rest == rest && cur + t == cur;
    } else {
      assert !IsQuote(t[0]) && !IsSpace(t[0]) && Plain(t[1..]);
      assert t + rest == [t[0]] + (t[1..] + rest) && cur + t == (cur + [t[0]]) + t[1..];
      FirstCharacter(t[0], t[1..] + rest, InText, cur, Progress(InText, cur + [t[0]], []));
      BarePart(t[1..], cur + [t[0]], rest);
    }
  }

  lemma MarkedPart(p: Piece, cur: string, rest: string)
    requires p.Marked? && Spellable(p)
    ensures Arguments(Spelled(p) + rest, InText, cur) == Arguments(rest, InText, cur + p.text)
  {
    var more := p.text + [p.close] + rest;
    assert Spelled(p) + rest == [p.open] + more;
    FirstCharacter(p.open, more, InText, cur, Progress(InQuotes, cur, []));
    UpToMark(p.text, p.close, cur, rest);
  }

  lemma {:induction false} UpToMark(t: string, close: char, cur: string, rest: string)
    requires !HasQuote(t) && IsMark(close)
    ensures Arguments(t + [close] + rest, InQuotes, cur) == Arguments(rest, InText, cur + t)
    decreases |t|
  {
    if t == [] {
      assert t + [close] + rest == [close] + rest && cur + t == cur;
      FirstCharacter(close, rest, InQuotes, cur, Progress(InText, cur, []));
    } else {
      assert !IsQuote(t[0]) && !HasQuote(t[1..]);
      var more := t[1..] + [close] + rest;
      assert t + [close] + rest == [t[0]] + more && cur + t == (cur + [t[0]]) + t[1..];
      FirstCharacter(t[0], more, InQuotes, cur, Progress(InQuotes, cur + [t[0]], []));
      UpToMark(t[1..], close, cur + [t[0]], rest);
    }
  }

  lemma PiecePart(p: Piece, cur: string, rest: string)
    requires Spellable(p)
    ensures Arguments(Spelled(p) + rest, InText, cur) == Arguments(rest, InText, cur + p.text)
  {
    if p.Bare? {
      BarePart(p.text, cur, rest);
    } else {
      MarkedPart(p, cur, rest);
    }
  }

  lemma Reassociate(a: string, b: string, c: string)
    ensures (a + b) + c == a + (b + c)
  {
  }

  lemma {:induction false} PiecesPart(ps: seq<Piece>, cur: string, rest: string)
    requires forall i :: 0 <= i < |ps| ==> Spellable(ps[i])
    ensures Arguments(Written(ps) + rest, InText, cur) == Arguments(rest, InText, cur + Joined(ps))
    decreases |ps|
  {
    if ps == [] {
      assert Written(ps) + rest == rest && cur + Joined(ps) == cur;
    } else {
      var p, more := ps[0], Written(ps[1..]) + rest;
      PiecePart(p, cur, more);
      PiecesPart(ps[1..], cur + p.text, rest);
      Reassociate(Spelled(p), Written(ps[1..]), rest);
      Reassociate(cur, p.text, Joined(ps[1..]));
    }
  }

  /** Stretches with and without quotation marks, one right after the other, make one argument. A
      blank, a tab or the end of a line ends it. */
  lemma PiecesJoin(ps: seq<Piece>, c: char, rest: string)
    requires (forall i :: 0 <= i < |ps| ==> Spellable(ps[i])) && ps != [] && Spelled(ps[0]) != []
    requires c == ' ' || c == '\t' || c == '\n' || c == '\r'
    ensures Arguments(Written(ps) + [c] + rest, Between, []) == [Joined(ps)] + Arguments(rest, Between, [])
    ensures Arguments(Written(ps), Between, []) == [Joined(ps)]
  {
    PiecesFrom(ps, [c] + rest);
    assert Written(ps) + [c] + rest == Written(ps) + ([c] + rest);
    FirstCharacter(c, rest, InText, Joined(ps), Progress(Between, [], [Joined(ps)]));
    PiecesFrom(ps, []);
    assert Written(ps) + [] == Written(ps);
  }

  lemma BeginsText(s: string)
    requires s != [] && !IsSpace(s[0])
    ensures Arguments(s, Between, []) == Arguments(s, InText, [])
  {
    assert s == [s[0]] + s[1..];
    var n := Next(Between, [], s[0]);
    FirstCharacter(s[0], s[1..], Between, [], n);
    FirstCharacter(s[0], s[1..], InText, [], n);
  }

  lemma PiecesFrom(ps: seq<Piece>, rest: string)
    requires (forall i :: 0 <= i < |ps| ==> Spellable(ps[i])) && ps != [] && Spelled(ps[0]) != []
    ensures Arguments(Written(ps) + rest, Between, []) == Arguments(rest, InText, Joined(ps))
  {
    PiecesPart(ps, [], rest);
    assert [] + Joined(ps) == Joined(ps);
    assert (Written(ps) + rest)[0] == Spelled(ps[0])[0];
    BeginsText(Written(ps) + rest);
  }

  /** An empty argument is lost. */
  lemma EmptyIsLost(leading: bool)
    ensures Arguments(Export([[]], leading), Between, []) == []
  {
    assert Export([[]], leading) == [' '];
    FirstCharacter(' ', [], Between, [], Progress(Between, [], []));
  }
}
