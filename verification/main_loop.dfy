/**
 The command loop of `main` in putin.c: read a line into the buffer, skip its
 leading blanks, dispatch it, and go round again while `is_running` is set.

 `fgets` is abstracted to the sequence of its outcomes: a line it stored in
 the buffer, or end of input. At end of input `fgets` stores nothing and the
 buffer keeps what it held (section 7.21.7.2 of ISO/IEC 9899:2011); the
 source ignores the result and dispatches that stale buffer again.
 `LoopAsWritten` models that, and `Loop` is the loop that stops at end of
 input, which the rest of the model uses.

 While `fgets` waits for a line the engine plays on: `engine(pass)` is the
 environment's account of that wait before the dispatch numbered `pass` (the
 new cursor, and whether the sound reached its end), applied through `Elapse`.
 Indexing by pass lets each wait differ, however long the user took.
 */
module MainLoop {
  import opened Tokenizer
  import opened Commands

  /** One call of `fgets`: a line stored in the buffer, or end of input with the buffer left alone. */
  datatype Read = Line(text: seq<char>) | Eof

  /** The end of a run of the loop: the state it leaves, and one reply per dispatched command (`Silent` for `q`), in order. */
  datatype Run = Run(final: Player, replies: seq<Reply>)

  /** One pass of the loop body on the buffer: skip blanks (putin.c:129-130), then dispatch. */
  function Step(p: Player, line: seq<char>, parse: seq<char> -> real): Transition {
    ProcessCommand(p, SkipBlanks(line), parse)
  }

  /**
   The C string left in the buffer after a pass: the skipped blanks and the
   verb, because the cut wrote NUL right after the verb (or the verb already
   ended at the terminator).
   */
  function Residue(line: seq<char>): seq<char> {
    var s := SkipBlanks(line);
    line[..|line| - |s|] + CutNextWord(s).verb
  }

  function LineCount(input: seq<Read>): (n: nat)
    ensures n <= |input|
  {
    if input == [] then 0 else (if input[0].Line? then 1 else 0) + LineCount(input[1..])
  }

  /** `n` consecutive end-of-input results. */
  function Eofs(n: nat): (r: seq<Read>)
    ensures |r| == n && forall k :: 0 <= k < n ==> r[k] == Eof
  {
    if n == 0 then [] else [Eof] + Eofs(n - 1)
  }

  /**
   The loop as the source has it: while running, call `fgets` and dispatch the
   buffer, stale or not. `buf` is the C string the buffer holds before the call.
   */
  function LoopAsWritten(p: Player, buf: seq<char>, input: seq<Read>, parse: seq<char> -> real,
                         engine: nat -> Progress, pass: nat): (r: Run)
    ensures |r.replies| <= |input|
    ensures !p.running ==> r == Run(p, [])
    ensures r.final.running ==> p.running
    ensures Valid(p) ==> Valid(r.final)
    decreases |input|
  {
    if !p.running || input == [] then
      Run(p, [])
    else
      var line := if input[0].Line? then input[0].text else buf;
      var t := Step(Elapse(p, engine(pass)), line, parse);
      var rest := LoopAsWritten(t.next, Residue(line), input[1..], parse, engine, pass + 1);
      Run(rest.final, [t.reply] + rest.replies)
  }

  /**
   The loop as evidently intended: end of input ends it like `q` would, so
   every reply answers a distinct line that was read, the ranges the
   dispatcher keeps are kept, and a stopped loop reads nothing.
   */
  function Loop(p: Player, input: seq<Read>, parse: seq<char> -> real, engine: nat -> Progress, pass: nat): (r: Run)
    ensures |r.replies| <= LineCount(input)
    ensures !p.running ==> r == Run(p, [])
    ensures r.final.running ==> p.running
    ensures Valid(p) ==> Valid(r.final)
    ensures r.final.length == p.length && r.final.track == p.track
    decreases |input|
  {
    if !p.running || input == [] || input[0].Eof? then
      Run(p, [])
    else
      var t := Step(Elapse(p, engine(pass)), input[0].text, parse);
      var rest := Loop(t.next, input[1..], parse, engine, pass + 1);
      Run(rest.final, [t.reply] + rest.replies)
  }

  /**
   `main` once the file is loaded, with the corrected loop: the start-up
   status line (putin.c:123-124) reports the track playing from the start
   without looping, then `Loop` runs, within the ranges the dispatcher keeps.
   */
  function Session(track: seq<char>, length: real, input: seq<Read>, parse: seq<char> -> real,
                   engine: nat -> Progress): (r: Run)
    ensures |r.replies| >= 1 && r.replies[0] == StatusLine(Position(0.0, length, track, false))
    ensures |r.replies| <= 1 + LineCount(input)
    ensures Valid(r.final) && r.final.track == track && r.final.length == length
  {
    var start := Initial(track, length);
    var rest := Loop(start, input, parse, engine, 0);
    Run(rest.final, [StatusLine(CurrentTime(start))] + rest.replies)
  }

  /**
   `main` once the file is loaded, as written: the same start-up status line,
   then the source loop from the uninitialised buffer `buf`; at most one
   reply per `fgets` call follows it.
   */
  function SessionAsWritten(track: seq<char>, length: real, buf: seq<char>, input: seq<Read>,
                            parse: seq<char> -> real, engine: nat -> Progress): (r: Run)
    ensures |r.replies| >= 1 && r.replies[0] == StatusLine(Position(0.0, length, track, false))
    ensures |r.replies| <= 1 + |input|
    ensures Valid(r.final)
  {
    var start := Initial(track, length);
    var rest := LoopAsWritten(start, buf, input, parse, engine, 0);
    Run(rest.final, [StatusLine(CurrentTime(start))] + rest.replies)
  }

  lemma TailOfJoin<T>(a: seq<T>, b: seq<T>)
    requires a != []
    ensures (a + b)[0] == a[0] && (a + b)[1..] == a[1..] + b
  {
  }

  /** Leading blanks never change what a line does. */
  lemma StepIgnoresLeadingBlanks(p: Player, ws: seq<char>, line: seq<char>, parse: seq<char> -> real)
    requires AllBlank(ws)
    ensures Step(p, ws + line, parse) == Step(p, line, parse)
  {
    SkipBlanksAbsorbs(ws, line);
  }

  /** A line of blanks only (a bare newline, say) is an empty command: invalid, with no change. */
  lemma BlankLineIsInvalid(p: Player, line: seq<char>, parse: seq<char> -> real)
    requires AllBlank(line)
    ensures Step(p, line, parse) == Transition(p, InvalidCommand([]))
  {
    assert line + [] == line;
    SkipBlanksOfJoin(line, []);
    OtherIsInvalid(p, [], parse);
  }

  /** The line `status` has no leading blanks, and cuts into the verb `status` and no arguments. */
  lemma StatusWordCut()
    ensures SkipBlanks("status\n") == "status\n"
    ensures ArgText("status\n") == []
  {
    BlankRunUnique("status\n", 0, 0);
    assert "status" + ['\n'] + [] + [] == "status\n";
    CutOfJoin("status", '\n', [], []);
  }

  /**
   The line `status` takes the seek branch, because only its first letter is
   read: it starts the track and seeks to whatever `atof` makes of the empty
   argument.
   */
  lemma StatusWordSeeks(p: Player, parse: seq<char> -> real)
    ensures Step(p, "status\n", parse).next == p.(playing := true, cursor := parse([]))
  {
    StatusWordCut();
    SeekPlays(p, "status\n", parse);
  }

  /** After a pass the buffer holds its blanks and the verb, and a further pass leaves it so. */
  lemma ResidueKeepsVerb(line: seq<char>)
    ensures SkipBlanks(Residue(line)) == CutNextWord(SkipBlanks(line)).verb
    ensures Residue(Residue(line)) == Residue(line)
  {
    var s := SkipBlanks(line);
    var ws := line[..|line| - |s|];
    var w := CutNextWord(s).verb;
    SkipBlanksOfJoin(ws, w);
    CutWithoutDelimiter(w);
    assert Residue(line)[..|Residue(line)| - |w|] == ws;
  }

  /** The command left in the buffer after a pass starts with the same letter as the one dispatched. */
  lemma ResidueKeepsLetter(line: seq<char>, c: char)
    requires !IsDelimiter(c)
    ensures Leads(SkipBlanks(Residue(line)), c) <==> Leads(SkipBlanks(line), c)
  {
    ResidueKeepsVerb(line);
    var w := CutNextWord(SkipBlanks(line)).verb;
    assert w != [] ==> w[0] == SkipBlanks(line)[0];
  }

  /** A pass over a buffer whose command is not `q` keeps the loop running, and so does its residue. */
  lemma ReplayKeepsRunning(p: Player, buf: seq<char>, parse: seq<char> -> real)
    requires p.running && !Leads(SkipBlanks(buf), 'q')
    ensures Step(p, buf, parse).next.running
    ensures !Leads(SkipBlanks(Residue(buf)), 'q')
  {
    ResidueKeepsLetter(buf, 'q');
  }

  /** One round of the source loop: dispatch the line read (or the stale buffer), then go on from its residue. */
  lemma AsWrittenRound(p: Player, buf: seq<char>, input: seq<Read>, parse: seq<char> -> real,
                       engine: nat -> Progress, pass: nat)
    requires p.running && input != []
    ensures var line := if input[0].Line? then input[0].text else buf;
            var t := Step(Elapse(p, engine(pass)), line, parse);
            var rest := LoopAsWritten(t.next, Residue(line), input[1..], parse, engine, pass + 1);
            LoopAsWritten(p, buf, input, parse, engine, pass) == Run(rest.final, [t.reply] + rest.replies)
  {
  }

  /** One round of the source loop at end of input: the stale buffer is dispatched and its residue stays. */
  lemma AsWrittenEofRound(p: Player, buf: seq<char>, n: nat, parse: seq<char> -> real,
                          engine: nat -> Progress, pass: nat)
    requires p.running && n > 0
    ensures var t := Step(Elapse(p, engine(pass)), buf, parse);
            var rest := LoopAsWritten(t.next, Residue(buf), Eofs(n - 1), parse, engine, pass + 1);
            LoopAsWritten(p, buf, Eofs(n), parse, engine, pass) == Run(rest.final, [t.reply] + rest.replies)
  {
    assert Eofs(n)[0] == Eof;
    assert Eofs(n)[1..] == Eofs(n - 1);
    AsWrittenRound(p, buf, Eofs(n), parse, engine, pass);
  }

  /** End-of-input results carry no lines. */
  lemma {:induction false} NoLinesInEofs(n: nat)
    ensures LineCount(Eofs(n)) == 0
    decreases n
  {
    if n > 0 {
      assert Eofs(n)[0] == Eof;
      assert Eofs(n)[1..] == Eofs(n - 1);
      NoLinesInEofs(n - 1);
    }
  }

  /**
   Finding, as written: once input ends, a running loop never stops. Each
   further `fgets` fails, the stale buffer is dispatched again, and every pass
   prints a reply, unless the buffered command is `q`, which would already
   have ended the loop. So `n` replies are printed although no line was read.
   */
  lemma {:induction false} AsWrittenNeverStopsAtEof(p: Player, buf: seq<char>, n: nat, parse: seq<char> -> real,
                                                     engine: nat -> Progress, pass: nat)
    requires p.running && !Leads(SkipBlanks(buf), 'q')
    ensures var r := LoopAsWritten(p, buf, Eofs(n), parse, engine, pass);
            r.final.running && |r.replies| == n && LineCount(Eofs(n)) == 0
    decreases n
  {
    NoLinesInEofs(n);
    if n == 0 {
      assert Eofs(n) == [];
    } else {
      var q := Elapse(p, engine(pass));
      var t := Step(q, buf, parse);
      ReplayKeepsRunning(q, buf, parse);
      AsWrittenEofRound(p, buf, n, parse, engine, pass);
      AsWrittenNeverStopsAtEof(t.next, Residue(buf), n - 1, parse, engine, pass + 1);
      var rest := LoopAsWritten(t.next, Residue(buf), Eofs(n - 1), parse, engine, pass + 1);
      assert LoopAsWritten(p, buf, Eofs(n), parse, engine, pass) == Run(rest.final, [t.reply] + rest.replies);
    }
  }

  /** At end of input, a stale `l` command toggles looping once more. */
  lemma StaleToggle(p: Player, buf: seq<char>, parse: seq<char> -> real, engine: nat -> Progress, pass: nat)
    requires p.running && Leads(SkipBlanks(buf), 'l')
    ensures var r := LoopAsWritten(p, buf, [Eof], parse, engine, pass);
            r.replies == [LoopLine(!p.looping)] && r.final.looping == !p.looping
  {
    var q := Elapse(p, engine(pass));
    LoopToggles(q, SkipBlanks(buf), parse);
    assert [Eof] == Eofs(1);
    AsWrittenEofRound(p, buf, 1, parse, engine, pass);
    assert LoopAsWritten(q.(looping := !q.looping), Residue(buf), Eofs(0), parse, engine, pass + 1) == Run(q.(looping := !q.looping), []);
  }

  /**
   Finding, a concrete case: an `l` line followed by end of input gets two
   replies from one line read, and the second toggle undoes the first.
   */
  lemma EofReplaysLastCommand(p: Player, stale: seq<char>, line: seq<char>, parse: seq<char> -> real,
                              engine: nat -> Progress, pass: nat)
    requires p.running && Leads(SkipBlanks(line), 'l')
    ensures var r := LoopAsWritten(p, stale, [Line(line), Eof], parse, engine, pass);
            r.replies == [LoopLine(!p.looping), LoopLine(p.looping)] &&
            r.final.looping == p.looping && |r.replies| > LineCount([Line(line), Eof])
  {
    var q := Elapse(p, engine(pass));
    LineThenEof(p, stale, line, parse, engine, pass);
    LoopToggles(q, SkipBlanks(line), parse);
    ResidueKeepsLetter(line, 'l');
    StaleToggle(q.(looping := !q.looping), Residue(line), parse, engine, pass + 1);
  }

  /** A line followed by end of input: one round on the line, then the loop goes on from its residue. */
  lemma LineThenEof(p: Player, stale: seq<char>, line: seq<char>, parse: seq<char> -> real,
                    engine: nat -> Progress, pass: nat)
    requires p.running
    ensures var t := Step(Elapse(p, engine(pass)), line, parse);
            var rest := LoopAsWritten(t.next, Residue(line), [Eof], parse, engine, pass + 1);
            LoopAsWritten(p, stale, [Line(line), Eof], parse, engine, pass) == Run(rest.final, [t.reply] + rest.replies)
    ensures LineCount([Line(line), Eof]) == 1
  {
    var input := [Line(line), Eof];
    assert input[1..] == [Eof];
    AsWrittenRound(p, stale, input, parse, engine, pass);
    assert LineCount(input) == 1 + LineCount([Eof]);
  }

  /**
   A track that is not looping stops when it reaches its end, and a `c`
   command then reports `stopped`.
   */
  lemma TrackEndReportsStopped(p: Player, line: seq<char>, parse: seq<char> -> real, engine: nat -> Progress, pass: nat)
    requires p.running && p.playing && !p.looping && engine(pass).ended
    requires Leads(SkipBlanks(line), 'c')
    ensures Loop(p, [Line(line)], parse, engine, pass).replies == [StatusLine(Stopped)]
  {
    var q := Elapse(p, engine(pass));
    StatusQuery(q, SkipBlanks(line), parse);
    assert [Line(line)][1..] == [];
  }

  /**
   The corrected loop changes only what happens at end of input: on input
   made of lines alone it does exactly what the source loop does.
   */
  lemma {:induction false} LoopAgreesBeforeEof(p: Player, buf: seq<char>, input: seq<Read>, parse: seq<char> -> real,
                                               engine: nat -> Progress, pass: nat)
    requires forall k :: 0 <= k < |input| ==> input[k].Line?
    ensures Loop(p, input, parse, engine, pass) == LoopAsWritten(p, buf, input, parse, engine, pass)
    decreases |input|
  {
    if p.running && input != [] {
      var t := Step(Elapse(p, engine(pass)), input[0].text, parse);
      LoopAgreesBeforeEof(t.next, Residue(input[0].text), input[1..], parse, engine, pass + 1);
    }
  }

  /** End of input ends the intended loop: nothing read after it is dispatched. */
  lemma {:induction false} LoopStopsAtEof(p: Player, pre: seq<Read>, post: seq<Read>, parse: seq<char> -> real,
                                           engine: nat -> Progress, pass: nat)
    requires forall k :: 0 <= k < |pre| ==> pre[k].Line?
    ensures Loop(p, pre + [Eof] + post, parse, engine, pass) == Loop(p, pre, parse, engine, pass)
    decreases |pre|
  {
    if pre != [] && p.running {
      var rest := [Eof] + post;
      assert pre + [Eof] + post == pre + rest;
      TailOfJoin(pre, rest);
      assert pre[1..] + [Eof] + post == pre[1..] + rest;
      LoopStopsAtEof(Step(Elapse(p, engine(pass)), pre[0].text, parse).next, pre[1..], post, parse, engine, pass + 1);
    }
  }

  /** Once a `q` line has cleared `running`, no later line is dispatched. */
  lemma {:induction false} LoopStopsAfterQuit(p: Player, pre: seq<Read>, post: seq<Read>, parse: seq<char> -> real,
                                               engine: nat -> Progress, pass: nat)
    requires !Loop(p, pre, parse, engine, pass).final.running
    ensures Loop(p, pre + post, parse, engine, pass) == Loop(p, pre, parse, engine, pass)
    decreases |pre|
  {
    if p.running && pre != [] && pre[0].Line? {
      var t := Step(Elapse(p, engine(pass)), pre[0].text, parse);
      TailOfJoin(pre, post);
      LoopStopsAfterQuit(t.next, pre[1..], post, parse, engine, pass + 1);
    }
  }
}
