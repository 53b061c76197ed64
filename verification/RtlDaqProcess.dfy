/** The receiver process with its global flags and receiver settings, updated in place. */
module RtlDaqProcess {
  import opened Common
  import opened IqHeaders
  import opened RtlDaq

  class Daq {
    const c: Config
    var enDummyFrame: bool
    var dummyFrameCntr: nat
    var noiseSourceState: bool
    var lastNoiseSourceState: bool
    var gainChangeFlag: bool
    const newGains: array<nat>
    var fsCorrectionFlag: bool
    var fsResetCntr: nat
    const newFsCorrections: array<real>
    var centerFreqChangeFlag: bool
    var newCenterFreq: nat
    var agcChangeFlag: bool
    var exitFlag: bool
    var left: bool
    var readBuffInd: nat
    const receivers: array<Receiver>
    var iqHeader: IqHeader

    ghost predicate Sized() {
      receivers.Length == c.chNo && newGains.Length == c.chNo && newFsCorrections.Length == c.chNo
    }

    ghost predicate Valid()
      reads this, newGains, newFsCorrections, receivers
      ensures Valid() ==> Sized()
    {
      ValidConfig(c) && ValidState(c, Abs())
    }

    ghost function Abs(): State
      reads this, newGains, newFsCorrections, receivers
    {
      State(enDummyFrame, dummyFrameCntr, noiseSourceState, lastNoiseSourceState, gainChangeFlag, newGains[..],
            fsCorrectionFlag, fsResetCntr, newFsCorrections[..], centerFreqChangeFlag, newCenterFreq,
            agcChangeFlag, exitFlag, left, readBuffInd, receivers[..], iqHeader)
    }

    constructor (c: Config, gain: nat, freq: nat, header: IqHeader)
      requires ValidConfig(c) && |header.ifGains| == 32
      ensures Valid() && this.c == c && Abs() == Initial(c, gain, freq, header)
      ensures fresh(newGains) && fresh(newFsCorrections) && fresh(receivers)
    {
      this.c := c;
      enDummyFrame, dummyFrameCntr := false, 0;
      noiseSourceState, lastNoiseSourceState := false, false;
      gainChangeFlag, fsCorrectionFlag, fsResetCntr := false, false, 0;
      centerFreqChangeFlag, newCenterFreq, agcChangeFlag := false, 0, false;
      exitFlag, left, readBuffInd, iqHeader := false, false, 0, header;
      newGains := new nat[c.chNo](_ => 0);
      newFsCorrections := new real[c.chNo](_ => 0.0);
      receivers := new Receiver[c.chNo](_ => Receiver(gain, false, freq, 0.0));
      new;
      assert newGains[..] == Repeat(0, c.chNo);
      assert newFsCorrections[..] == Repeat(0.0, c.chNo);
      assert receivers[..] == Repeat(Receiver(gain, false, freq, 0.0), c.chNo);
    }

    method StoreGains(gains: seq<nat>)
      requires |gains| == newGains.Length == c.chNo
      modifies newGains
      ensures newGains[..] == gains
    {
      for i := 0 to c.chNo
        invariant newGains[..i] == gains[..i]
      {
        newGains[i] := gains[i];
      }
    }

    method StoreCorrections(ppm: seq<real>)
      requires |ppm| == newFsCorrections.Length == c.chNo
      modifies newFsCorrections
      ensures newFsCorrections[..] == ppm
    {
      for i := 0 to c.chNo
        invariant newFsCorrections[..i] == ppm[..i]
      {
        newFsCorrections[i] := ppm[i];
      }
    }

    /** Requests that carry one value per receiver. */
    method RecordLists(cmd: Command)
      requires Valid() && ValidCommand(c, cmd) && (cmd.SetGains? || cmd.CorrectFs?)
      modifies this`gainChangeFlag, this`fsResetCntr, this`fsCorrectionFlag, newGains, newFsCorrections
      ensures Abs() == Request(c, old(Abs()), cmd)
    {
      if cmd.SetGains? {
        StoreGains(cmd.gains);
        gainChangeFlag := true;
      } else {
        StoreCorrections(cmd.ppm);
        fsResetCntr := 0;
        fsCorrectionFlag := true;
      }
    }

    method RecordRequest(cmd: Command)
      requires Valid() && ValidCommand(c, cmd)
      modifies this`newCenterFreq, this`centerFreqChangeFlag, this`gainChangeFlag, this`agcChangeFlag,
               this`fsResetCntr, this`fsCorrectionFlag, this`noiseSourceState, this`exitFlag,
               newGains, newFsCorrections
      ensures Abs() == Request(c, old(Abs()), cmd)
    {
      match cmd {
        case Tune(freq) =>
          newCenterFreq := freq;
          centerFreqChangeFlag := true;
        case EnableAgc =>
          agcChangeFlag := true;
        case SwitchNoise(on) =>
          noiseSourceState := on;
        case Halt =>
          exitFlag := true;
        case Unknown =>
        case _ =>
          RecordLists(cmd);
      }
    }

    /** The control thread on one received message. */
    method HandleCommand(cmd: Command)
      requires Valid() && ValidCommand(c, cmd)
      modifies this, newGains, newFsCorrections
      ensures Valid() && Abs() == Order(c, old(Abs()), cmd)
    {
      hide Request;
      RecordRequest(cmd);
      enDummyFrame := true;
      dummyFrameCntr := 0;
    }

    /** The settings of the receivers go into the header. */
    method FillReceiverFields()
      requires Valid()
      modifies this`iqHeader
      ensures iqHeader == old(iqHeader).(rfCenterFreq := receivers[c.chNo - 1].centerFreq,
                                         ifGains := IfGains(old(Abs()), c.chNo))
    {
      for i := 0 to c.chNo
        invariant iqHeader == old(iqHeader).(
                    rfCenterFreq := if i == 0 then old(iqHeader.rfCenterFreq) else receivers[i - 1].centerFreq,
                    ifGains := iqHeader.ifGains)
        invariant |iqHeader.ifGains| == 32
        invariant forall k | 0 <= k < 32 ::
                    iqHeader.ifGains[k] == if k < i then receivers[k].gain else old(iqHeader.ifGains)[k]
      {
        iqHeader := iqHeader.(rfCenterFreq := receivers[i].centerFreq,
                              ifGains := iqHeader.ifGains[i := receivers[i].gain]);
      }
      assert iqHeader.ifGains == IfGains(old(Abs()), c.chNo);
    }

    method CompleteHeader(m: Measured)
      requires Valid()
      modifies this`iqHeader
      ensures iqHeader == NextHeader(c, old(Abs()), m)
    {
      iqHeader := iqHeader.(timeStamp := m.timeStamp, daqBlockIndex := readBuffInd % 0x1_0000_0000);
      FillReceiverFields();
      iqHeader := iqHeader.(adcOverdriveFlags := m.overdriveFlags,
                            noiseSourceState := if noiseSourceState then 1 else 0);
      if enDummyFrame {
        iqHeader := iqHeader.(frameType := FRAME_TYPE_DUMMY, dataType := 0, cpiLength := 0);
      } else {
        iqHeader := iqHeader.(cpiLength := c.daqBufferSize, dataType := 1);
        if noiseSourceState {
          iqHeader := iqHeader.(frameType := FRAME_TYPE_CAL);
        } else {
          iqHeader := iqHeader.(frameType := FRAME_TYPE_DATA);
        }
      }
    }

    /** Sends the frame and counts it. */
    method Send(m: Measured)
      requires Valid()
      modifies this`iqHeader, this`readBuffInd, this`dummyFrameCntr, this`enDummyFrame
      ensures Valid() && Abs() == SendFrame(c, old(Abs()), m)
    {
      CompleteHeader(m);
      readBuffInd := readBuffInd + 1;
      if enDummyFrame {
        dummyFrameCntr := dummyFrameCntr + 1;
        if dummyFrameCntr == NO_DUMMY_FRAMES {
          enDummyFrame := false;
        }
      }
    }

    method ControlFreq(hw: Hardware)
      requires Sized() && ValidHardware(c, hw)
      modifies this`centerFreqChangeFlag, receivers
      ensures !centerFreqChangeFlag
      ensures receivers[..] == if old(centerFreqChangeFlag) then TuneAll(old(receivers[..]), hw.freq)
                               else old(receivers[..])
    {
      if centerFreqChangeFlag {
        for i := 0 to c.chNo
          invariant forall k | 0 <= k < c.chNo ::
                      receivers[k] == if k < i then TuneAll(old(receivers[..]), hw.freq)[k] else old(receivers[k])
        {
          if hw.freq[i].Some? {
            receivers[i] := receivers[i].(centerFreq := hw.freq[i].value);
          }
        }
        centerFreqChangeFlag := false;
      }
    }

    method ControlGain(hw: Hardware)
      requires Sized() && ValidHardware(c, hw)
      modifies this`gainChangeFlag, receivers
      ensures !gainChangeFlag
      ensures receivers[..] == if old(gainChangeFlag) then GainAll(old(receivers[..]), newGains[..], hw.gainOk)
                               else old(receivers[..])
    {
      if gainChangeFlag {
        ghost var gains := newGains[..];
        for i := 0 to c.chNo
          invariant newGains[..] == gains
          invariant forall k | 0 <= k < c.chNo ::
                      receivers[k] == if k < i then GainAll(old(receivers[..]), gains, hw.gainOk)[k]
                                      else old(receivers[k])
        {
          if hw.gainOk[i] {
            receivers[i] := receivers[i].(gain := newGains[i], agc := false);
          }
        }
        gainChangeFlag := false;
      }
    }

    method ControlAgc(hw: Hardware)
      requires Sized() && ValidHardware(c, hw)
      modifies this`agcChangeFlag, receivers
      ensures !agcChangeFlag
      ensures receivers[..] == if old(agcChangeFlag) then AgcAll(old(receivers[..]), hw.agcOk)
                               else old(receivers[..])
    {
      if agcChangeFlag {
        for i := 0 to c.chNo
          invariant forall k | 0 <= k < c.chNo ::
                      receivers[k] == if k < i then AgcAll(old(receivers[..]), hw.agcOk)[k] else old(receivers[k])
        {
          if hw.agcOk[i] {
            receivers[i] := receivers[i].(agc := true);
          }
        }
        agcChangeFlag := false;
      }
    }

    method ControlFs(hw: Hardware)
      requires Sized() && ValidHardware(c, hw)
      modifies this`fsCorrectionFlag, this`fsResetCntr, receivers
      ensures fsCorrectionFlag == (old(fsCorrectionFlag) && old(fsResetCntr) != 1)
      ensures fsResetCntr == if old(fsCorrectionFlag) then old(fsResetCntr) + 1 else old(fsResetCntr)
      ensures receivers[..] ==
              if !old(fsCorrectionFlag) then old(receivers[..])
              else if old(fsResetCntr) == 0 then PpmAll(old(receivers[..]), newFsCorrections[..], hw.fsOk)
              else if old(fsResetCntr) == 1 then PpmReset(old(receivers[..]), newFsCorrections[..], hw.fsOk)
              else old(receivers[..])
    {
      if fsCorrectionFlag {
        ghost var ppm := newFsCorrections[..];
        if fsResetCntr == 0 {
          for i := 0 to c.chNo
            invariant newFsCorrections[..] == ppm
            invariant forall k | 0 <= k < c.chNo ::
                        receivers[k] == if k < i then PpmAll(old(receivers[..]), ppm, hw.fsOk)[k]
                                        else old(receivers[k])
            modifies receivers
          {
            if hw.fsOk[i] {
              receivers[i] := receivers[i].(ppm := newFsCorrections[i]);
            }
          }
        } else if fsResetCntr == 1 {
          for i := 0 to c.chNo
            invariant newFsCorrections[..] == ppm
            invariant forall k | 0 <= k < c.chNo ::
                        receivers[k] == if k < i then PpmReset(old(receivers[..]), ppm, hw.fsOk)[k]
                                        else old(receivers[k])
            modifies receivers
          {
            if Magnitude(newFsCorrections[i]) < FS_CORRECTION_KEEP_LIMIT && hw.fsOk[i] {
              receivers[i] := receivers[i].(ppm := 0.0);
            }
          }
          fsCorrectionFlag := false;
        }
        fsResetCntr := fsResetCntr + 1;
      }
    }

    /** Frequency, gain and AGC requests. */
    method ControlFront(hw: Hardware) returns (applied: seq<Event>)
      requires Valid() && ValidHardware(c, hw)
      modifies this`centerFreqChangeFlag, this`gainChangeFlag, this`agcChangeFlag, receivers
      ensures !centerFreqChangeFlag && !gainChangeFlag && !agcChangeFlag
      ensures receivers[..] == RetuneFront(c, old(Abs()), hw) && applied == FrontChanges(old(Abs()))
    {
      applied := if centerFreqChangeFlag then [Applied(FreqChange)] else [];
      ControlFreq(hw);
      applied := applied + if gainChangeFlag then [Applied(GainChange)] else [];
      ControlGain(hw);
      applied := applied + if agcChangeFlag then [Applied(AgcChange)] else [];
      ControlAgc(hw);
    }

    /** All requests that change the receivers. */
    method ControlReceivers(hw: Hardware) returns (applied: seq<Event>)
      requires Valid() && ValidHardware(c, hw)
      modifies this`centerFreqChangeFlag, this`gainChangeFlag, this`agcChangeFlag, this`fsCorrectionFlag,
               this`fsResetCntr, receivers
      ensures !centerFreqChangeFlag && !gainChangeFlag && !agcChangeFlag
      ensures fsCorrectionFlag == (old(fsCorrectionFlag) && old(fsResetCntr) != 1)
      ensures fsResetCntr == if old(fsCorrectionFlag) then old(fsResetCntr) + 1 else old(fsResetCntr)
      ensures receivers[..] == Retune(c, old(Abs()), hw)
      ensures applied == FrontChanges(old(Abs())) + RateChanges(old(Abs()))
    {
      hide RetuneFront, FrontChanges, PpmAll, PpmReset;
      applied := ControlFront(hw);
      if fsCorrectionFlag && fsResetCntr == 0 {
        applied := applied + [Applied(FsSet)];
      } else if fsCorrectionFlag && fsResetCntr == 1 {
        applied := applied + [Applied(FsReset)];
      }
      ControlFs(hw);
    }

    /** Tuner control: carries out the requests and reports them in order; then the loop tests the exit flag. */
    method ControlTuners(hw: Hardware) returns (applied: seq<Event>)
      requires Valid() && ValidHardware(c, hw)
      modifies this`centerFreqChangeFlag, this`gainChangeFlag, this`agcChangeFlag, this`fsCorrectionFlag,
               this`fsResetCntr, this`lastNoiseSourceState, this`left, receivers
      ensures Valid() && Abs() == Control(c, old(Abs()), hw) && applied == Changes(c, old(Abs()))
    {
      hide Retune, FrontChanges, RateChanges;
      applied := ControlReceivers(hw);
      if lastNoiseSourceState != noiseSourceState && c.enNoiseSourceCtr {
        applied := applied + [Applied(NoiseSwitch)];
      }
      lastNoiseSourceState := noiseSourceState;
      left := exitFlag;
    }

    /** One turn of the main loop: the frame sent and the changes applied after it, in order. */
    method MainLoopTurn(m: Measured, hw: Hardware) returns (log: seq<Event>)
      requires Valid() && ValidHardware(c, hw) && !left
      modifies this, receivers
      ensures Valid() && (Abs(), log) == Next(c, old(Abs()), Turn(m, hw))
    {
      hide Changes, Control, NextHeader;
      Send(m);
      log := [Emitted(iqHeader)];
      var applied := ControlTuners(hw);
      log := log + applied;
    }
  }
}
