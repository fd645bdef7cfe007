# putin: a verified model of the command loop

putin is a small terminal music player. It loads one audio file, starts it,
and reads commands line by line from standard input. Each line has its
leading blanks skipped, is cut into a verb and its arguments, and is
dispatched on the first character of the verb:

- `c` reports status;
- `s` seeks;
- `l` toggles looping;
- `p` queries or sets the pitch;
- `v` queries or sets the volume;
- `q` quits.

This project models that core in Dafny, in three modules:

- `Tokenizer` (tokenizer.dfy) holds the command buffer as a `seq<char>`. Reading stops at the first NUL or at the end, as for a C string. The module models the verb/argument cut `cut_and_get_next_word` and the blank skip before dispatch.
- `Commands` (commands.dfy) models `process_commands` as a transition on a `Player` state. The audio engine is represented by the fields it reports: playing, looping, pitch, volume, cursor, length. Each engine call becomes a field update. `atof` is a parameter `parse`, so every property holds whatever number it returns. `Elapse` is the engine playing on between commands, as the environment reports it for each pass. Only the cursor and the playing flag change then, and a sound stops only at its end, never while it loops.
- `MainLoop` (main_loop.dfy) models the read–skip–dispatch loop of `main` over the sequence of outcomes of `fgets`: a line, or end of input. It comes in two versions:
  - `LoopAsWritten` follows the code, which ignores the result of `fgets` (see Findings). `SessionAsWritten` is the start-up status line followed by it.
  - `Loop` stops at end of input. `Session` is the start-up status line followed by it.

Command words do not mean what they say; the model follows the code:

- Dispatch reads only the first character of the verb. `clear`, `stop` and `status` are `c`, `s` and `s`. The line `status` therefore seeks to whatever `atof("")` gives (`StatusWordSeeks`).
- There are no separate play, pause or time commands. `play` and `pause` are pitch commands, and `time` is invalid.
- Seeking checks no range.
- `q` prints nothing itself. The goodbye line comes from `main` after the loop.
- An invalid command echoes only the verb, because the cut has already ended the C string after the verb.

## Model

| member | source | states |
|---|---|---|
| Tokenizer.DelimiterFrom | putin.c:22 | the verb scan stops at the first space, newline or NUL, and everything before it is none of those |
| Tokenizer.BlankRunFrom | putin.c:27 | the blank skip stops at the first character that is neither space nor newline, and everything skipped is one of those |
| Tokenizer.CutNextWord | putin.c:20-29 | the verb is a delimiter-free prefix ending at a delimiter or the end; the arguments are a suffix that never starts with a blank; they are empty as a C string when the verb ended at NUL or the end of the buffer |
| Tokenizer.VerbIsLongest | putin.c:22 | every delimiter-free prefix of the input is a prefix of the verb, so the verb is the longest one |
| Tokenizer.CutReconstructs | putin.c:22-28 | when the verb ends at a blank, the input is exactly verb, that blank, a run of blanks and the arguments, so the cut loses nothing but blanks |
| Tokenizer.CutOfJoin | putin.c:20-29 | cutting word + blank + blanks + arguments gives back that word (possibly empty) and those arguments, the inverse of the reconstruction |
| Tokenizer.CutWithoutDelimiter | putin.c:22-23 | input without any delimiter is all verb and has empty arguments |
| Tokenizer.CStrIsPrefix | putin.c:75 | the C string the argument pointer denotes is the longest NUL-free prefix of the buffer suffix |
| Tokenizer.SkipBlanksDropsBlanks | putin.c:129-130 | the strip removes only spaces and newlines, and what remains does not start with one |
| Tokenizer.SkipBlanksIdempotent | putin.c:130 | stripping an already stripped command changes nothing |
| Tokenizer.SkipBlanksOfJoin | putin.c:130 | any run of blanks in front of a command that starts with a non-blank is exactly what is stripped |
| Tokenizer.SkipBlanksAbsorbs | putin.c:130 | extra leading blanks in front of any line make no difference to the stripped command |
| Commands.Elapse | putin.c:36-53 | between commands only the cursor and the playing flag change, and nothing at all while stopped; playing goes false only for a non-looping sound that reached its end |
| Commands.ProcessCommand | putin.c:57-108 | length and path never change; each field changes only under its own command letter (loop `l`, pitch `p`, volume `v`, playing and cursor `s`, running `q`); pitch and volume stay in range; nothing sets running again |
| Commands.StatusQuery | putin.c:60-62 | `c` prints the current status and changes nothing |
| Commands.SeekPlays | putin.c:63-68 | `s` leaves the sound playing at the parsed position with no range check, and prints that position |
| Commands.LoopToggles | putin.c:69-73 | `l` flips looping only and prints the new setting |
| Commands.LoopTwiceRestores | putin.c:69-73 | two `l` commands give back the state they started from |
| Commands.PercentQuery | putin.c:74-92 | `p` or `v` with an empty argument prints the current pitch or volume in percent and changes nothing |
| Commands.PitchSet | putin.c:79-87 | with an argument, `invalid percent` is printed exactly when the value is outside (0, 300], and then nothing changes; otherwise only the pitch becomes value/100 and the value is echoed |
| Commands.VolumeSet | putin.c:93-101 | with an argument, `invalid percent` is printed exactly when the value is outside [0, 100], and then nothing changes; otherwise only the volume becomes value/100 and the value is echoed |
| Commands.PitchSetThenQuery | putin.c:74-87 | an accepted pitch is what the next pitch query reports |
| Commands.VolumeSetThenQuery | putin.c:88-101 | an accepted volume is what the next volume query reports |
| Commands.QuitStops | putin.c:102-104 | `q` clears running, prints nothing and changes nothing else |
| Commands.OtherIsInvalid | putin.c:107 | any other first character, including an empty command, prints `invalid command` with the verb and changes nothing |
| Commands.FirstCharacterDecides | putin.c:60-105 | two commands with the same known first letter and the same argument text have the same effect and output, whatever the rest of the verb |
| MainLoop.StepIgnoresLeadingBlanks | putin.c:129-131 | leading blanks on a line never change what it does |
| MainLoop.BlankLineIsInvalid | putin.c:129-131 | a line of blanks only, such as an empty line, is reported as an invalid empty command |
| MainLoop.StatusWordSeeks | putin.c:63-66 | the line `status` starts the sound and seeks to `atof` of the empty argument |
| MainLoop.ResidueKeepsVerb | putin.c:24 | after a pass the buffer holds the skipped blanks and the verb, and a further pass leaves it so |
| MainLoop.ResidueKeepsLetter | putin.c:24 | the command left in the buffer starts with the same letter as the command dispatched |
| MainLoop.LoopAsWritten | putin.c:126-132 | each `fgets` call yields one reply at most; a stopped loop reads nothing; nothing restarts it; ranges are kept |
| MainLoop.AsWrittenNeverStopsAtEof | putin.c:127-131 | at end of input a running loop whose buffer does not hold `q` prints one reply per further pass and never stops, although no line is read |
| MainLoop.StaleToggle | putin.c:128-131 | at end of input a stale `l` command toggles looping again |
| MainLoop.EofReplaysLastCommand | putin.c:127-131 | one `l` line then end of input gives two replies (loop on, loop off), more replies than lines, and undoes the toggle |
| MainLoop.Loop | putin.c:127-132 | the intended loop: no more replies than lines read; a stopped loop reads nothing; nothing restarts it; ranges, length and path are kept |
| MainLoop.Session | putin.c:123-132 | with the corrected loop: the first output is the start-up status (playing from 0, not looping), then at most one reply per line read; ranges, length and path are kept |
| MainLoop.SessionAsWritten | putin.c:123-132 | as written: the first output is the start-up status (playing from 0, not looping), then at most one reply per `fgets` call; ranges are kept |
| MainLoop.LoopAgreesBeforeEof | putin.c:127-131 | on input made of lines only, the corrected loop and the source loop give the same state and replies, so the correction changes only the end-of-input case |
| MainLoop.TrackEndReportsStopped | putin.c:35-38 | a non-looping track that reaches its end stops, and `c` then prints `stopped` |
| MainLoop.LoopStopsAtEof | putin.c:127-132 | in the intended loop nothing after end of input is dispatched |
| MainLoop.LoopStopsAfterQuit | putin.c:127 | once `q` has cleared running, no later line is dispatched |

## Left out

- ProcessCommand: `parse` returns a real, so a NaN from `atof("nan")` is not modelled. NaN fails both comparisons of putin.c:81 and putin.c:95, so the program accepts it as a pitch or volume; the range-keeping clause holds only for real-valued parses.
- PitchSet: a NaN argument would be accepted and echoed rather than rejected with `invalid percent`; not modelled, for the reason above.
- VolumeSet: a NaN argument would be accepted and echoed rather than rejected with `invalid percent`; not modelled, for the reason above.
- SeekPlays: the engine is assumed to land exactly on the parsed position; what miniaudio does with a negative position or one past the end is not modelled.
- LoopAsWritten: the engine's progress before each dispatch is given by the environment per pass (`engine(pass)`), not derived from elapsed time; no timing, decoding or real clock is modelled.
- Loop: the same per-pass environment stands for the engine's progress.
- Session: runs the corrected `Loop`, so its bound of one reply per line read does not hold for the program as written at end of input; `SessionAsWritten` is the composition with the source loop.
- The miniaudio engine itself (initialisation, streaming, the actual pitch and volume effect) is reduced to the state fields it reports.
- `printf` formatting and `print_time` (minutes and seconds via `fmodf`, `%.3f`) are abstracted to the `Reply` datatype.
- Single-precision floating point is modelled as `real`; rounding of `p / 100.0f` and of the percent printed by queries is not modelled.
- `atof` is the parameter `parse`; its parsing rules are not modelled.
- `fgets` is reduced to the sequence of its outcomes. How a line longer than 255 characters is split into several reads and what a read error leaves in the buffer are not derived. The buffer before the first read (uninitialised in the source) is the free parameter `buf`.
- The usage message, the abort paths of engine and file loading (putin.c:110-121), the `Exiting...` line and the engine shutdown (putin.c:134-137) are left out as process start-up and tear-down.
- `print_current_time` with no file path is unreachable after putin.c:115 and is not modelled.

## Findings

| source | as written | input that shows it | evidently intended | confidence | as-written member | corrected member |
|---|---|---|---|---|---|---|
| putin.c:127-131 | the result of `fgets` is ignored; at end of input the buffer keeps the blanks and verb of the last command, which is dispatched again on every pass, so the loop never ends unless that command was `q` | standard input `l` followed by end of input: `loop on`, `loop off`, `loop on`, … without end | leave the loop at end of input | not executed | MainLoop.AsWrittenNeverStopsAtEof | MainLoop.Loop |
