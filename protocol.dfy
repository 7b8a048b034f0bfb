/** The text protocol of the gqrx remote-control daemon as the client speaks it:
    the report-code convention of set commands, the table of preset passbands,
    the command lines the client writes and the way it reads the replies of
    get commands. Everything here is a pure function of its arguments. */
module Protocol {
  import opened Text

  datatype Option<T> = None | Some(value: T)

  // ---------------------------------------------------------------------------
  // Report codes

  /** The reply's second space-separated token starts at `i + 1` and is exactly
      "0": `i` is the first space, a '0' follows it, and then the reply ends or
      another space comes. */
  ghost predicate ZeroCodeAt(reply: string, i: int) {
    0 <= i && i + 2 <= |reply| &&
    ' ' !in reply[..i] && reply[i] == ' ' && reply[i + 1] == '0' &&
    (i + 2 == |reply| || reply[i + 2] == ' ')
  }

  /** The second of the space-separated words is exactly "0" precisely when the
      reply has a zero code after its first space. */
  lemma SecondWordIsZero(response: string)
    ensures (|Split(response, ' ')| >= 2 && Split(response, ' ')[1] == "0") <==>
            exists i :: ZeroCodeAt(response, i)
  {
    var tokens := Split(response, ' ');
    if |tokens| >= 2 && tokens[1] == "0" {
      var rest := Join(tokens[1..], ' ');
      assert response == tokens[0] + [' '] + rest;
      JoinStartsWithFirst(tokens[1..], ' ');
      assert rest == "0" || rest[1] == ' ' by {
        if |tokens| > 2 {
          assert rest == tokens[1] + [' '] + Join(tokens[2..], ' ');
        }
      }
      assert ZeroCodeAt(response, |tokens[0]|);
    }
    if i :| ZeroCodeAt(response, i) {
      var head, code := response[..i], response[i + 1..];
      assert response == head + [' '] + code;
      SplitAtFirst(head, ' ', code);
      if |code| == 1 {
        assert code == "0";
        SplitNoSeparator(code, ' ');
      } else {
        assert code == "0" + [' '] + code[2..];
        SplitAtFirst("0", ' ', code[2..]);
      }
    }
  }

  /** `parseResponse`: a set command succeeded exactly when the reply's second
      space-separated token is the string "0"; a reply with no space, or any
      other second token, fails. */
  function ParseResponse(response: string): (ok: bool)
    ensures ok <==> exists i :: ZeroCodeAt(response, i)
  {
    var tokens := Split(response, ' ');
    SecondWordIsZero(response);
    |tokens| >= 2 && tokens[1] == "0"
  }

  /** The daemon's usual replies: "RPRT 0" is success, "RPRT 1" is failure, and
      a reply without a code is failure too. */
  lemma ReportCodeExamples()
    ensures ParseResponse("RPRT 0")
    ensures !ParseResponse("RPRT 1")
    ensures !ParseResponse("RPRT")
    ensures !ParseResponse("")
  {
    assert ZeroCodeAt("RPRT 0", 4);
  }

  // ---------------------------------------------------------------------------
  // Modes and their preset passbands (Hz)

  const Presets: map<string, nat> := map[
    "AM" := 10000, "FM" := 10000,
    "WFM" := 160000, "WFM_ST" := 160000,
    "LSB" := 2700, "USB" := 2700,
    "CW" := 500]

  /** `presets[mode]` read as JavaScript truthiness: the passband of a known
      mode, None for an unknown one (and for a zero passband, of which the
      table has none). Exactly the seven demodulator names are accepted. */
  function PresetFor(mode: string): (p: Option<nat>)
    ensures p.Some? <==> mode in {"AM", "FM", "WFM", "WFM_ST", "LSB", "USB", "CW"}
    ensures p.Some? ==> p.value == Presets[mode] && p.value > 0
  {
    if mode in Presets && Presets[mode] != 0 then Some(Presets[mode]) else None
  }

  // ---------------------------------------------------------------------------
  // Command lines, written exactly as built: no terminator is appended

  const GetFrequencyCommand := "f"
  const GetModeCommand := "m"
  const ListModesCommand := "M ?"
  const GetStrengthCommand := "l STRENGTH"
  const GetSquelchCommand := "l SQL"
  const GetRecordCommand := "u RECORD"
  const AosCommand := "AOS"
  const LosCommand := "LOS"
  const VersionCommand := "_"
  const GetLnbCommand := "LNB_LO"
  /** The only command the client terminates with a newline. */
  const QuitCommand := "q\n"

  function FrequencyCommand(freq: string): string { "F " + freq }
  function ModeCommand(mode: string, passband: string): string { "M " + mode + " " + passband }
  function SquelchCommand(level: string): string { "L SQL " + level }
  function RecordCommand(status: string): string { "U RECORD " + status }
  function LnbCommand(freq: string): string { "LNB_LO " + freq }

  /** The line `setMode` writes for a known mode: its preset in decimal. */
  function PresetCommand(mode: string): string
    requires mode in Presets
  {
    ModeCommand(mode, NatToDecimal(Presets[mode]))
  }

  /** Two space-free words joined by a single space split back into them. */
  lemma TwoWords(first: string, second: string)
    requires ' ' !in first && ' ' !in second
    ensures Split(first + " " + second, ' ') == [first, second]
  {
    var words := [first, second];
    assert Join(words[1..], ' ') == second;
    assert Join(words, ' ') == first + " " + second;
    SplitJoin(words, ' ');
  }

  /** The frequency command carries the frequency as its second word. */
  lemma FrequencyCommandWords(freq: string)
    requires ' ' !in freq
    ensures Split(FrequencyCommand(freq), ' ') == ["F", freq]
  {
    TwoWords("F", freq);
    assert FrequencyCommand(freq) == "F" + " " + freq;
  }

  /** The LNB command carries the frequency as its second word. */
  lemma LnbCommandWords(freq: string)
    requires ' ' !in freq
    ensures Split(LnbCommand(freq), ' ') == ["LNB_LO", freq]
  {
    TwoWords("LNB_LO", freq);
    assert LnbCommand(freq) == "LNB_LO" + " " + freq;
  }

  /** Three space-free words joined by single spaces split back into them. */
  lemma ThreeWords(first: string, second: string, third: string)
    requires ' ' !in first && ' ' !in second && ' ' !in third
    ensures Split(first + " " + second + " " + third, ' ') == [first, second, third]
  {
    var words := [first, second, third];
    assert Join(words[2..], ' ') == third;
    assert Join(words, ' ') == first + " " + second + " " + third;
    SplitJoin(words, ' ');
  }

  /** A mode command carries its mode and passband as the second and third
      space-separated words, so the daemon reads back what was passed. */
  lemma ModeCommandWords(mode: string, passband: string)
    requires ' ' !in mode && ' ' !in passband
    ensures Split(ModeCommand(mode, passband), ' ') == ["M", mode, passband]
  {
    ThreeWords("M", mode, passband);
    assert ModeCommand(mode, passband) == "M" + " " + mode + " " + passband;
  }

  /** The recording command carries the status as its third word. */
  lemma RecordCommandWords(status: string)
    requires ' ' !in status
    ensures Split(RecordCommand(status), ' ') == ["U", "RECORD", status]
  {
    ThreeWords("U", "RECORD", status);
    assert RecordCommand(status) == "U" + " " + "RECORD" + " " + status;
  }

  /** `startRecording` formats 1 and writes "U RECORD 1"; `stopRecording`
      formats 0 and writes "U RECORD 0". */
  lemma RecordCommandTexts()
    ensures RecordCommand(NatToDecimal(1)) == "U RECORD 1"
    ensures RecordCommand(NatToDecimal(0)) == "U RECORD 0"
  {
  }

  /** The squelch command carries the level as its third word. */
  lemma SquelchCommandWords(level: string)
    requires ' ' !in level
    ensures Split(SquelchCommand(level), ' ') == ["L", "SQL", level]
  {
    ThreeWords("L", "SQL", level);
    assert SquelchCommand(level) == "L" + " " + "SQL" + " " + level;
  }

  /** For every preset mode, the written line is "M <mode> <passband>" whose
      third word is the decimal text of the table's passband. */
  lemma PresetCommandWords(mode: string)
    requires mode in Presets
    ensures Split(PresetCommand(mode), ' ') == ["M", mode, NatToDecimal(Presets[mode])]
    ensures DecimalValue(NatToDecimal(Presets[mode])) == Presets[mode]
  {
    var passband := Presets[mode];
    DecimalHasNoSpace(passband);
    ModeCommandWords(mode, NatToDecimal(passband));
    DecimalRoundTrip(passband);
  }

  // ---------------------------------------------------------------------------
  // Replies of get commands

  /** What `getModeAndPassband` returns: line 1 and, if there is one, line 2. */
  datatype ModeAndBandwidth = ModeAndBandwidth(mode: string, bandwidth: Option<string>)

  /** `const [mode, bandwidth] = response.split('\n')`: the first line is the
      mode; the second line, absent when the reply is a single line, is the
      bandwidth; any further lines are ignored. */
  function ModeAndBandwidthOf(reply: string): (r: ModeAndBandwidth)
    ensures '\n' !in r.mode && r.mode <= reply
    ensures r.bandwidth.None? <==> '\n' !in reply
    ensures r.bandwidth.None? ==> r.mode == reply
    ensures r.bandwidth.Some? ==> '\n' !in r.bandwidth.value
    ensures r.bandwidth.Some? ==>
              r.mode + "\n" + r.bandwidth.value == reply ||
              r.mode + "\n" + r.bandwidth.value + "\n" <= reply
  {
    var lines := Split(reply, '\n');
    JoinStartsWithFirst(lines, '\n');
    if |lines| == 1 then
      ModeAndBandwidth(lines[0], None)
    else
      assert reply == lines[0] + "\n" + Join(lines[1..], '\n');
      if |lines| == 2 then
        assert Join(lines[1..], '\n') == lines[1];
        ModeAndBandwidth(lines[0], Some(lines[1]))
      else
        assert Join(lines[1..], '\n') == lines[1] + "\n" + Join(lines[2..], '\n');
        ModeAndBandwidth(lines[0], Some(lines[1]))
  }

  /** A two-line reply is read back as the mode and bandwidth it was made of. */
  lemma ModeAndBandwidthRoundTrip(mode: string, bandwidth: string)
    requires '\n' !in mode && '\n' !in bandwidth
    ensures ModeAndBandwidthOf(mode + "\n" + bandwidth) == ModeAndBandwidth(mode, Some(bandwidth))
  {
    SplitAtFirst(mode, '\n', bandwidth);
    SplitNoSeparator(bandwidth, '\n');
  }

  /** Lines after the second are ignored: a mode line and a bandwidth line
      followed by anything are read back as that mode and that bandwidth. */
  lemma ModeAndBandwidthIgnoresRest(mode: string, bandwidth: string, rest: string)
    requires '\n' !in mode && '\n' !in bandwidth
    ensures ModeAndBandwidthOf(mode + "\n" + bandwidth + "\n" + rest) == ModeAndBandwidth(mode, Some(bandwidth))
  {
    assert mode + "\n" + bandwidth + "\n" + rest == mode + ['\n'] + (bandwidth + ['\n'] + rest);
    SplitAtFirst(mode, '\n', bandwidth + ['\n'] + rest);
    SplitAtFirst(bandwidth, '\n', rest);
  }

  /** `getAvailableModes`: the reply split on single spaces. */
  function AvailableModesOf(reply: string): (modes: seq<string>)
    ensures |modes| >= 1
    ensures forall i :: 0 <= i < |modes| ==> ' ' !in modes[i]
    ensures Join(modes, ' ') == reply
  {
    Split(reply, ' ')
  }

  /** A list of space-free mode names sent as one space-separated reply is read
      back as the same list, in the same order. */
  lemma AvailableModesRoundTrip(modes: seq<string>)
    requires |modes| >= 1
    requires forall i :: 0 <= i < |modes| ==> ' ' !in modes[i]
    ensures AvailableModesOf(Join(modes, ' ')) == modes
  {
    SplitJoin(modes, ' ');
  }

  /** `isRecording`: the (trimmed) recording-status reply is exactly "1". */
  function RecordingFlag(reply: string): bool {
    reply == "1"
  }

  /** A status line "1" read off the socket with its line ending counts as
      recording; "0" with its line ending does not. */
  lemma RecordingFlagOfLine(padding: string)
    requires AllWhitespace(padding)
    ensures RecordingFlag(Trim("1" + padding))
    ensures !RecordingFlag(Trim("0" + padding))
  {
    TrimTrailing("1", padding);
    TrimTrailing("0", padding);
  }
}
