/** The `Client` of the gqrx remote-control library: a socket guarded by its
    pending flag, one command written per call, and per-command reading of
    the reply. The socket itself is not modelled: `pending` stands for the
    socket's own flag, the ghost field `written` records every string handed
    to `socket.write`, and the first event the socket delivers after a write
    (a data chunk or an error) is a parameter of the call. */
module Gqrx {
  import opened Text
  import opened Protocol

  /** A settled promise: its value, or the message of the Error it rejected with. */
  datatype Result<T> = Ok(value: T) | Err(message: string)

  /** The first of the two events `sendCommand` listens for once. */
  datatype SocketEvent = Data(chunk: string) | Error(message: string)

  const NotConnected := "Not connected"
  const AlreadyConnected := "Already connected"
  const InvalidMode := "Invalid mode"

  /** How `sendCommand` settles: rejected at once while the socket is pending,
      otherwise with the trimmed chunk or the socket's own error. */
  function Settle(pending: bool, event: SocketEvent): (r: Result<string>)
    ensures pending ==> r == Err(NotConnected)
    ensures !pending && event.Data? ==> r.Ok? && |r.value| <= |event.chunk|
    ensures !pending && event.Data? && r.value != [] ==>
              !IsWhitespace(r.value[0]) && !IsWhitespace(r.value[|r.value| - 1])
    ensures !pending && event.Error? ==> r == Err(event.message)
  {
    if pending then Err(NotConnected)
    else match event
      case Data(chunk) => Ok(Trim(chunk))
      case Error(message) => Err(message)
  }

  /** What `sendCommand` hands to `socket.write`: the command, unless the guard refused. */
  function Sent(pending: bool, command: string): seq<string> {
    if pending then [] else [command]
  }

  /** A set command's outcome: any failure of the exchange becomes the facade
      method's fixed message, a reply becomes its report code. */
  function Report(exchange: Result<string>, failure: string): (r: Result<bool>)
    ensures r.Err? <==> exchange.Err?
    ensures r.Err? ==> r.message == failure
    ensures r.Ok? ==> r.value == ParseResponse(exchange.value)
  {
    match exchange
    case Ok(reply) => Ok(ParseResponse(reply))
    case Err(_) => Err(failure)
  }

  /** A get command's outcome: the reply text itself, or the fixed message. */
  function Raw(exchange: Result<string>, failure: string): (r: Result<string>)
    ensures r.Err? <==> exchange.Err?
    ensures r.Err? ==> r.message == failure
    ensures r.Ok? ==> r.value == exchange.value
  {
    match exchange
    case Ok(reply) => Ok(reply)
    case Err(_) => Err(failure)
  }

  /** No failure of the exchange, the pending guard's included, escapes a
      facade method under its own message. */
  lemma FailuresAreReplaced(pending: bool, event: SocketEvent, failure: string)
    requires pending || event.Error?
    ensures Report(Settle(pending, event), failure) == Err(failure)
    ensures Raw(Settle(pending, event), failure) == Err(failure)
  {
  }

  class Client {
    const host: string
    const port: nat
    /** The socket's `pending` flag: true until it has connected, and again
        once it has been destroyed. */
    var pending: bool
    /** Every string handed to the socket's `write`, oldest first. */
    ghost var written: seq<string>

    constructor (host: string := "localhost", port: nat := 7356)
      ensures this.host == host && this.port == port
      ensures pending && written == []
    {
      this.host := host;
      this.port := port;
      pending := true;
      written := [];
    }

    /** `connect`: refused once the socket is no longer pending; otherwise the
        socket connects and stops being pending. */
    method Connect() returns (r: Result<()>)
      modifies this
      ensures r == if old(pending) then Ok(()) else Err(AlreadyConnected)
      ensures !pending
      ensures written == old(written)
    {
      if !pending {
        return Err(AlreadyConnected);
      }
      pending := false;
      r := Ok(());
    }

    /** `sendCommand`: refused, with nothing written, while the socket is
        pending; otherwise writes the command verbatim and settles with the
        trimmed reply or the socket's error. A socket reports an error only
        once it has been destroyed, so after an error it is pending again. */
    method SendCommand(command: string, event: SocketEvent) returns (r: Result<string>)
      modifies this
      ensures pending == (old(pending) || event.Error?)
      ensures old(pending) ==> r == Err(NotConnected) && written == old(written)
      ensures !old(pending) ==> written == old(written) + [command]
      ensures !old(pending) && event.Data? ==> r == Ok(Trim(event.chunk))
      ensures !old(pending) && event.Error? ==> r == Err(event.message)
    {
      if pending {
        return Err(NotConnected);
      }
      written := written + [command];
      match event
      case Data(chunk) => r := Ok(Trim(chunk));
      case Error(message) =>
        pending := true;
        r := Err(message);
    }

    /** `setFrequency`, given the frequency already formatted in Hz. */
    method SetFrequency(freq: string, event: SocketEvent) returns (r: Result<bool>)
      modifies this
      ensures pending == (old(pending) || event.Error?)
      ensures written == old(written) + Sent(old(pending), FrequencyCommand(freq))
      ensures r == Report(Settle(old(pending), event), "Failed to set frequency")
    {
      var reply := SendCommand(FrequencyCommand(freq), event);
      r := Report(reply, "Failed to set frequency");
    }

    /** `getFrequency`, up to the reply text (its conversion to MHz is not modelled). */
    method GetFrequency(event: SocketEvent) returns (r: Result<string>)
      modifies this
      ensures pending == (old(pending) || event.Error?)
      ensures written == old(written) + Sent(old(pending), GetFrequencyCommand)
      ensures r == Raw(Settle(old(pending), event), "Failed to get frequency")
    {
      var reply := SendCommand(GetFrequencyCommand, event);
      r := Raw(reply, "Failed to get frequency");
    }

    /** `setMode`: an unknown mode is refused before anything is written; a
        known one is set with its preset passband, and any failure of that
        becomes "Failed to set mode". */
    method SetMode(mode: string, event: SocketEvent) returns (r: Result<bool>)
      modifies this
      ensures pending == (old(pending) || (PresetFor(mode).Some? && event.Error?))
      ensures PresetFor(mode).None? ==> r == Err(InvalidMode) && written == old(written)
      ensures PresetFor(mode).Some? ==>
                written == old(written) + Sent(old(pending), PresetCommand(mode)) &&
                r == Report(Settle(old(pending), event), "Failed to set mode")
    {
      var preset := PresetFor(mode);
      if preset.None? {
        return Err(InvalidMode);
      }
      var outcome := SetModeAndPassband(mode, NatToDecimal(preset.value), event);
      r := if outcome.Err? then Err("Failed to set mode") else outcome;
    }

    /** `setModeAndPassband`, given the passband already formatted. */
    method SetModeAndPassband(mode: string, passband: string, event: SocketEvent) returns (r: Result<bool>)
      modifies this
      ensures pending == (old(pending) || event.Error?)
      ensures written == old(written) + Sent(old(pending), ModeCommand(mode, passband))
      ensures r == Report(Settle(old(pending), event), "Failed to set mode and passband")
    {
      var reply := SendCommand(ModeCommand(mode, passband), event);
      r := Report(reply, "Failed to set mode and passband");
    }

    /** `getModeAndPassband`: line 1 of the reply is the mode, line 2 the bandwidth. */
    method GetModeAndPassband(event: SocketEvent) returns (r: Result<ModeAndBandwidth>)
      modifies this
      ensures pending == (old(pending) || event.Error?)
      ensures written == old(written) + Sent(old(pending), GetModeCommand)
      ensures r.Err? <==> Settle(old(pending), event).Err?
      ensures r.Err? ==> r.message == "Failed to get mode and bandwidth"
      ensures r.Ok? ==> r.value == ModeAndBandwidthOf(Settle(old(pending), event).value)
    {
      var reply := SendCommand(GetModeCommand, event);
      if reply.Err? {
        return Err("Failed to get mode and bandwidth");
      }
      r := Ok(ModeAndBandwidthOf(reply.value));
    }

    /** `getAvailableModes`: the reply split on single spaces. */
    method GetAvailableModes(event: SocketEvent) returns (r: Result<seq<string>>)
      modifies this
      ensures pending == (old(pending) || event.Error?)
      ensures written == old(written) + Sent(old(pending), ListModesCommand)
      ensures r.Err? <==> Settle(old(pending), event).Err?
      ensures r.Err? ==> r.message == "Failed to get available modes"
      ensures r.Ok? ==> r.value == AvailableModesOf(Settle(old(pending), event).value)
    {
      var reply := SendCommand(ListModesCommand, event);
      if reply.Err? {
        return Err("Failed to get available modes");
      }
      r := Ok(AvailableModesOf(reply.value));
    }

    /** `getSignalStrength`, up to the reply text (its parsing as a float is not modelled). */
    method GetSignalStrength(event: SocketEvent) returns (r: Result<string>)
      modifies this
      ensures pending == (old(pending) || event.Error?)
      ensures written == old(written) + Sent(old(pending), GetStrengthCommand)
      ensures r == Raw(Settle(old(pending), event), "Failed to get signal strength")
    {
      var reply := SendCommand(GetStrengthCommand, event);
      r := Raw(reply, "Failed to get signal strength");
    }

    /** `getSquelch`, up to the reply text (its parsing as a float is not modelled). */
    method GetSquelch(event: SocketEvent) returns (r: Result<string>)
      modifies this
      ensures pending == (old(pending) || event.Error?)
      ensures written == old(written) + Sent(old(pending), GetSquelchCommand)
      ensures r == Raw(Settle(old(pending), event), "Failed to get squelch")
    {
      var reply := SendCommand(GetSquelchCommand, event);
      r := Raw(reply, "Failed to get squelch");
    }

    /** `setSquelch`, given the level already formatted. */
    method SetSquelch(level: string, event: SocketEvent) returns (r: Result<bool>)
      modifies this
      ensures pending == (old(pending) || event.Error?)
      ensures written == old(written) + Sent(old(pending), SquelchCommand(level))
      ensures r == Report(Settle(old(pending), event), "Failed to set squelch")
    {
      var reply := SendCommand(SquelchCommand(level), event);
      r := Report(reply, "Failed to set squelch");
    }

    /** `getRecordingStatus`: the reply text as it is. */
    method GetRecordingStatus(event: SocketEvent) returns (r: Result<string>)
      modifies this
      ensures pending == (old(pending) || event.Error?)
      ensures written == old(written) + Sent(old(pending), GetRecordCommand)
      ensures r == Raw(Settle(old(pending), event), "Failed to get recording status")
    {
      var reply := SendCommand(GetRecordCommand, event);
      r := Raw(reply, "Failed to get recording status");
    }

    /** `setRecordingStatus`, given the status already formatted. */
    method SetRecordingStatus(status: string, event: SocketEvent) returns (r: Result<bool>)
      modifies this
      ensures pending == (old(pending) || event.Error?)
      ensures written == old(written) + Sent(old(pending), RecordCommand(status))
      ensures r == Report(Settle(old(pending), event), "Failed to set recording status")
    {
      var reply := SendCommand(RecordCommand(status), event);
      r := Report(reply, "Failed to set recording status");
    }

    /** `isRecording`: true exactly when the status reply is "1"; a failure to
        read the status propagates under that getter's message. */
    method IsRecording(event: SocketEvent) returns (r: Result<bool>)
      modifies this
      ensures pending == (old(pending) || event.Error?)
      ensures written == old(written) + Sent(old(pending), GetRecordCommand)
      ensures r.Err? <==> Settle(old(pending), event).Err?
      ensures r.Err? ==> r.message == "Failed to get recording status"
      ensures r.Ok? ==> (r.value <==> Settle(old(pending), event).value == "1")
    {
      var status := GetRecordingStatus(event);
      if status.Err? {
        return Err(status.message);
      }
      r := Ok(RecordingFlag(status.value));
    }

    /** `startRecording`: `setRecordingStatus(1)`, formatted as `${1}`. */
    method StartRecording(event: SocketEvent) returns (r: Result<bool>)
      modifies this
      ensures pending == (old(pending) || event.Error?)
      ensures written == old(written) + Sent(old(pending), "U RECORD 1")
      ensures r == Report(Settle(old(pending), event), "Failed to set recording status")
    {
      RecordCommandTexts();
      r := SetRecordingStatus(NatToDecimal(1), event);
    }

    /** `stopRecording`: `setRecordingStatus(0)`, formatted as `${0}`. */
    method StopRecording(event: SocketEvent) returns (r: Result<bool>)
      modifies this
      ensures pending == (old(pending) || event.Error?)
      ensures written == old(written) + Sent(old(pending), "U RECORD 0")
      ensures r == Report(Settle(old(pending), event), "Failed to set recording status")
    {
      RecordCommandTexts();
      r := SetRecordingStatus(NatToDecimal(0), event);
    }

    /** `triggerAOS`. */
    method TriggerAos(event: SocketEvent) returns (r: Result<bool>)
      modifies this
      ensures pending == (old(pending) || event.Error?)
      ensures written == old(written) + Sent(old(pending), AosCommand)
      ensures r == Report(Settle(old(pending), event), "Failed to trigger AOS")
    {
      var reply := SendCommand(AosCommand, event);
      r := Report(reply, "Failed to trigger AOS");
    }

    /** `triggerLOS`. */
    method TriggerLos(event: SocketEvent) returns (r: Result<bool>)
      modifies this
      ensures pending == (old(pending) || event.Error?)
      ensures written == old(written) + Sent(old(pending), LosCommand)
      ensures r == Report(Settle(old(pending), event), "Failed to trigger LOS")
    {
      var reply := SendCommand(LosCommand, event);
      r := Report(reply, "Failed to trigger LOS");
    }

    /** `getVersion`: the reply text as it is. */
    method GetVersion(event: SocketEvent) returns (r: Result<string>)
      modifies this
      ensures pending == (old(pending) || event.Error?)
      ensures written == old(written) + Sent(old(pending), VersionCommand)
      ensures r == Raw(Settle(old(pending), event), "Failed to get version")
    {
      var reply := SendCommand(VersionCommand, event);
      r := Raw(reply, "Failed to get version");
    }

    /** `getLNB`: the reply text as it is. */
    method GetLnb(event: SocketEvent) returns (r: Result<string>)
      modifies this
      ensures pending == (old(pending) || event.Error?)
      ensures written == old(written) + Sent(old(pending), GetLnbCommand)
      ensures r == Raw(Settle(old(pending), event), "Failed to get LNB")
    {
      var reply := SendCommand(GetLnbCommand, event);
      r := Raw(reply, "Failed to get LNB");
    }

    /** `setLNB`, given the frequency already formatted in Hz; its failure
        message is the getter's, "Failed to get LNB". */
    method SetLnb(freq: string, event: SocketEvent) returns (r: Result<bool>)
      modifies this
      ensures pending == (old(pending) || event.Error?)
      ensures written == old(written) + Sent(old(pending), LnbCommand(freq))
      ensures r == Report(Settle(old(pending), event), "Failed to get LNB")
    {
      var reply := SendCommand(LnbCommand(freq), event);
      r := Report(reply, "Failed to get LNB");
    }

    /** `quit`: writes "q\n" without consulting the guard, then destroys the
        socket, which leaves it pending again. */
    method Quit()
      modifies this
      ensures written == old(written) + [QuitCommand]
      ensures pending
    {
      written := written + [QuitCommand];
      pending := true;
    }
  }

  /** The guard over a fresh client: a command before `connect` is refused and
      writes nothing, `connect` succeeds once and is refused afterwards, the
      next command goes through, and after `quit` commands are refused again. */
  method ConnectionLifecycle(event: SocketEvent)
    returns (early: Result<string>, first: Result<()>, again: Result<()>,
             version: Result<string>, late: Result<string>)
    ensures early == Err(NotConnected)
    ensures first == Ok(()) && again == Err(AlreadyConnected)
    ensures event.Data? ==> version == Ok(Trim(event.chunk))
    ensures event.Error? ==> version == Err("Failed to get version")
    ensures late == Err(NotConnected)
  {
    var client := new Client();
    early := client.SendCommand(VersionCommand, event);
    first := client.Connect();
    again := client.Connect();
    version := client.GetVersion(event);
    client.Quit();
    late := client.SendCommand(VersionCommand, event);
  }

  /** A socket error ends the connection: the failed command is reported under
      its method's message, the next command is refused with "Not connected"
      and writes nothing, and `connect` is accepted again. */
  method ErrorLifecycle(message: string, reply: string)
    returns (failed: Result<string>, refused: Result<string>, reconnected: Result<()>)
    ensures failed == Err("Failed to get version")
    ensures refused == Err(NotConnected)
    ensures reconnected == Ok(())
  {
    var client := new Client();
    var first := client.Connect();
    failed := client.GetVersion(Error(message));
    refused := client.SendCommand(VersionCommand, Data(reply));
    reconnected := client.Connect();
  }
}
