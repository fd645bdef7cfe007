/**
 The command dispatcher `process_commands` of putin.c as a transition on the
 player state.

 The audio engine is represented by the fields it reports back (playing,
 looping, pitch, volume, cursor, length); each engine call becomes a field
 update. The C library's `atof` is a parameter `parse`, so every property
 here holds whatever number it returns.
 */
module Commands {
  import opened Tokenizer

  /** Engine state and process state that the commands read and change. */
  datatype Player = Player(
    playing: bool,    // the engine reports the sound as playing
    looping: bool,    // the engine's looping flag
    pitch: real,      // engine pitch ratio; 1.0 plays at the recorded pitch
    volume: real,     // engine volume factor; 1.0 is full volume
    cursor: real,     // playback position in seconds, as the engine reports it
    length: real,     // length of the track in seconds
    track: seq<char>, // the file path given on the command line
    running: bool)    // `is_running`: the main loop reads another line while set

  /** What `print_current_time` prints: `stopped`, or position, length, path and the loop mark. */
  datatype Status = Stopped | Position(cursor: real, length: real, track: seq<char>, looping: bool)

  /** The line a command prints, abstracted from its `printf` formatting. */
  datatype Reply =
    | StatusLine(status: Status)
    | LoopLine(on: bool)
    | PitchLine(percent: real)
    | VolumeLine(percent: real)
    | InvalidPercent
    | InvalidCommand(command: seq<char>)
    | Silent

  datatype Transition = Transition(next: Player, reply: Reply)

  /**
   The ranges the dispatcher keeps: pitch in (0, 300] percent and volume in
   [0, 100] percent, as engine ratios. They are kept for every real value
   `parse` returns; a NaN from `atof` would pass both range tests.
   */
  predicate Valid(p: Player) {
    0.0 < p.pitch <= 3.0 && 0.0 <= p.volume <= 1.0
  }

  /** The state after start-up (putin.c:115-123): the track loaded and started with the engine's defaults. */
  function Initial(track: seq<char>, length: real): Player {
    Player(true, false, 1.0, 1.0, 0.0, length, track, true)
  }

  /**
   What the engine reports after playing on for a while, as the environment
   decides it: the new cursor, and whether the sound reached its end.
   */
  datatype Progress = Progress(cursor: real, ended: bool)

  /**
   The engine playing on between two commands. Only the cursor and the
   playing flag can change; a sound stops only by reaching its end, and a
   looping sound never stops.
   */
  function Elapse(p: Player, e: Progress): (q: Player)
    ensures q == p.(cursor := q.cursor, playing := q.playing)
    ensures q.playing != p.playing ==> p.playing && !p.looping && e.ended
    ensures p.playing && !p.looping && e.ended ==> !q.playing
    ensures p.playing ==> q.cursor == e.cursor
    ensures !p.playing ==> q == p
  {
    if !p.playing then p
    else p.(cursor := e.cursor, playing := p.looping || !e.ended)
  }

  /** `print_current_time`; the path is always set once the track has loaded, so only `playing` decides. */
  function CurrentTime(p: Player): Status {
    if !p.playing then Stopped else Position(p.cursor, p.length, p.track, p.looping)
  }

  /** The pitch range check of putin.c:81, written as the source writes it. */
  predicate PitchRejected(v: real) {
    v <= 0.0 || v > 300.0
  }

  /** The volume range check of putin.c:95, written as the source writes it. */
  predicate VolumeRejected(v: real) {
    v < 0.0 || v > 100.0
  }

  /** `command[0]` after the cut: the first character of the verb, or NUL when the verb is empty. */
  function Selector(verb: seq<char>): char {
    if verb == [] then '\0' else verb[0]
  }

  /**
   `process_commands`: cut the verb, then branch on its first character alone.
   Each field can change only under the command letter that owns it, the
   ranges the dispatcher keeps are kept, and nothing can set `running` again.
   */
  function ProcessCommand(p: Player, command: seq<char>, parse: seq<char> -> real): (t: Transition)
    ensures t.next.length == p.length && t.next.track == p.track
    ensures Valid(p) ==> Valid(t.next)
    ensures t.next.running ==> p.running
    ensures t.next.looping != p.looping ==> Leads(command, 'l')
    ensures t.next.pitch != p.pitch ==> Leads(command, 'p')
    ensures t.next.volume != p.volume ==> Leads(command, 'v')
    ensures t.next.playing != p.playing || t.next.cursor != p.cursor ==> Leads(command, 's')
    ensures t.next.running != p.running ==> Leads(command, 'q')
  {
    var cut := CutNextWord(command);
    var args := CStr(cut.args);
    var c := Selector(cut.verb);
    if c == 'c' then
      Transition(p, StatusLine(CurrentTime(p)))
    else if c == 's' then
      var q := p.(playing := true, cursor := parse(args));
      Transition(q, StatusLine(CurrentTime(q)))
    else if c == 'l' then
      Transition(p.(looping := !p.looping), LoopLine(!p.looping))
    else if c == 'p' then
      if args == [] then
        Transition(p, PitchLine(p.pitch * 100.0))
      else
        var v := parse(args);
        if PitchRejected(v) then Transition(p, InvalidPercent)
        else Transition(p.(pitch := v / 100.0), PitchLine(v))
    else if c == 'v' then
      if args == [] then
        Transition(p, VolumeLine(p.volume * 100.0))
      else
        var v := parse(args);
        if VolumeRejected(v) then Transition(p, InvalidPercent)
        else Transition(p.(volume := v / 100.0), VolumeLine(v))
    else if c == 'q' then
      Transition(p.(running := false), Silent)
    else
      Transition(p, InvalidCommand(cut.verb))
  }

  /** The argument text `atof` reads: the C string at the pointer the cut returns. */
  function ArgText(command: seq<char>): seq<char> {
    CStr(CutNextWord(command).args)
  }

  /** A `c` command reports the status and changes nothing. */
  lemma StatusQuery(p: Player, command: seq<char>, parse: seq<char> -> real)
    requires Leads(command, 'c')
    ensures ProcessCommand(p, command, parse) == Transition(p, StatusLine(CurrentTime(p)))
  {
  }

  /**
   An `s` command leaves the track playing at the parsed position and reports
   that position; no range is checked.
   */
  lemma SeekPlays(p: Player, command: seq<char>, parse: seq<char> -> real)
    requires Leads(command, 's')
    ensures var t := ProcessCommand(p, command, parse);
            t.next == p.(playing := true, cursor := parse(ArgText(command))) &&
            t.reply == StatusLine(Position(parse(ArgText(command)), p.length, p.track, p.looping))
  {
  }

  /** An `l` command flips the loop flag, reports the new value, and changes nothing else. */
  lemma LoopToggles(p: Player, command: seq<char>, parse: seq<char> -> real)
    requires Leads(command, 'l')
    ensures var t := ProcessCommand(p, command, parse);
            t.next == p.(looping := !p.looping) && t.reply == LoopLine(t.next.looping)
  {
  }

  /** Two `l` commands in a row give back the state they started from. */
  lemma LoopTwiceRestores(p: Player, a: seq<char>, b: seq<char>, parse: seq<char> -> real)
    requires Leads(a, 'l') && Leads(b, 'l')
    ensures ProcessCommand(ProcessCommand(p, a, parse).next, b, parse).next == p
  {
    LoopToggles(p, a, parse);
    LoopToggles(ProcessCommand(p, a, parse).next, b, parse);
  }

  /** A `p` or `v` command without arguments is a query: it reports the current percentage and changes nothing. */
  lemma PercentQuery(p: Player, command: seq<char>, parse: seq<char> -> real)
    requires Leads(command, 'p') || Leads(command, 'v')
    requires ArgText(command) == []
    ensures var t := ProcessCommand(p, command, parse);
            t.next == p &&
            t.reply == (if command[0] == 'p' then PitchLine(p.pitch * 100.0) else VolumeLine(p.volume * 100.0))
  {
  }

  /**
   A `p` command with arguments: the reply is `invalid percent` exactly when the
   parsed value is out of (0, 300], and then nothing changes; otherwise only the
   pitch changes, to the value divided by 100, and the value is echoed.
   */
  lemma PitchSet(p: Player, command: seq<char>, parse: seq<char> -> real)
    requires Leads(command, 'p') && ArgText(command) != []
    ensures var v := parse(ArgText(command));
            var t := ProcessCommand(p, command, parse);
            && (t.reply == InvalidPercent <==> (v <= 0.0 || v > 300.0))
            && ((v <= 0.0 || v > 300.0) ==> t.next == p)
            && (0.0 < v <= 300.0 ==> t.next == p.(pitch := v / 100.0) && t.reply == PitchLine(v))
  {
  }

  /**
   A `v` command with arguments: the reply is `invalid percent` exactly when the
   parsed value is out of [0, 100], and then nothing changes; otherwise only the
   volume changes, to the value divided by 100, and the value is echoed.
   */
  lemma VolumeSet(p: Player, command: seq<char>, parse: seq<char> -> real)
    requires Leads(command, 'v') && ArgText(command) != []
    ensures var v := parse(ArgText(command));
            var t := ProcessCommand(p, command, parse);
            && (t.reply == InvalidPercent <==> (v < 0.0 || v > 100.0))
            && ((v < 0.0 || v > 100.0) ==> t.next == p)
            && (0.0 <= v <= 100.0 ==> t.next == p.(volume := v / 100.0) && t.reply == VolumeLine(v))
  {
  }

  /** A pitch accepted by a `p` command is what the next argument-less `p` command reports. */
  lemma PitchSetThenQuery(p: Player, change: seq<char>, query: seq<char>, parse: seq<char> -> real)
    requires Leads(change, 'p') && ArgText(change) != [] && !PitchRejected(parse(ArgText(change)))
    requires Leads(query, 'p') && ArgText(query) == []
    ensures ProcessCommand(ProcessCommand(p, change, parse).next, query, parse).reply
            == PitchLine(parse(ArgText(change)))
  {
    PitchSet(p, change, parse);
  }

  /** A volume accepted by a `v` command is what the next argument-less `v` command reports. */
  lemma VolumeSetThenQuery(p: Player, change: seq<char>, query: seq<char>, parse: seq<char> -> real)
    requires Leads(change, 'v') && ArgText(change) != [] && !VolumeRejected(parse(ArgText(change)))
    requires Leads(query, 'v') && ArgText(query) == []
    ensures ProcessCommand(ProcessCommand(p, change, parse).next, query, parse).reply
            == VolumeLine(parse(ArgText(change)))
  {
    VolumeSet(p, change, parse);
  }

  /** A `q` command clears `running`, prints nothing, and changes nothing else. */
  lemma QuitStops(p: Player, command: seq<char>, parse: seq<char> -> real)
    requires Leads(command, 'q')
    ensures ProcessCommand(p, command, parse) == Transition(p.(running := false), Silent)
  {
  }

  /**
   Any command whose first character is not one of `c s l p v q` (an empty
   command, or one starting with a blank or NUL, included) is reported as
   invalid, echoing the verb, and changes nothing.
   */
  lemma OtherIsInvalid(p: Player, command: seq<char>, parse: seq<char> -> real)
    requires command == [] || command[0] !in "cslpvq"
    ensures ProcessCommand(p, command, parse)
            == Transition(p, InvalidCommand(CutNextWord(command).verb))
  {
    var cut := CutNextWord(command);
    if cut.verb != [] {
      assert cut.verb[0] == command[0];
    }
  }

  /**
   Only the first character of the command selects the branch: two commands
   with the same known first character and the same argument text have the
   same effect and reply, whatever the rest of their verbs say.
   */
  lemma FirstCharacterDecides(p: Player, a: seq<char>, b: seq<char>, parse: seq<char> -> real)
    requires |a| > 0 && |b| > 0 && a[0] == b[0] && a[0] in "cslpvq"
    requires ArgText(a) == ArgText(b)
    ensures ProcessCommand(p, a, parse) == ProcessCommand(p, b, parse)
  {
    var c := a[0];
    if c == 'c' {
      StatusQuery(p, a, parse);
      StatusQuery(p, b, parse);
    } else if c == 's' {
      SeekPlays(p, a, parse);
      SeekPlays(p, b, parse);
    } else if c == 'l' {
      LoopToggles(p, a, parse);
      LoopToggles(p, b, parse);
    } else if c == 'q' {
      QuitStops(p, a, parse);
      QuitStops(p, b, parse);
    } else if ArgText(a) == [] {
      PercentQuery(p, a, parse);
      PercentQuery(p, b, parse);
    } else if c == 'p' {
      PitchSet(p, a, parse);
      PitchSet(p, b, parse);
    } else {
      VolumeSet(p, a, parse);
      VolumeSet(p, b, parse);
    }
  }
}
