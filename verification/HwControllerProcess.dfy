/** The hardware controller with its gain lists, flags and counters, updated in place. */
module HwControllerProcess {
  import opened Common
  import opened IqHeaders
  import opened HwController
  import Daq = RtlDaq

  class HWC {
    const c: Config
    var currentState: Fsm
    var gains: seq<nat>
    var lastGains: seq<nat>
    var gainTuneStates: seq<bool>
    var gainLockCntr: nat
    var noiseSourceState: bool
    var agc: bool
    var lastAgc: bool
    var calFrameCntr: nat
    /** Everything sent to the receiver process so far. */
    var sent: seq<Daq.Command>

    ghost function Abs(): State
      reads this
    {
      State(currentState, gains, lastGains, gainTuneStates, gainLockCntr, noiseSourceState, agc, lastAgc,
            calFrameCntr)
    }

    ghost predicate Valid()
      reads this
    {
      ValidConfig(c) && ValidState(c, Abs())
    }

    constructor (c: Config, gains: seq<nat>, tune: bool)
      requires ValidConfig(c) && ValidGainList(c, gains)
      ensures Valid() && this.c == c && sent == []
      ensures Abs() == State(StateInit, gains, gains, Repeat(tune, c.chNum), 0, false, false, false, 0)
    {
      this.c := c;
      currentState := StateInit;
      this.gains, lastGains, gainTuneStates := gains, gains, Repeat(tune, c.chNum);
      gainLockCntr, calFrameCntr := 0, 0;
      noiseSourceState, agc, lastAgc := false, false, false;
      sent := [];
    }

    method SmallestGain() returns (smallest: nat)
      requires Valid()
      ensures smallest == MinOf(gains)
    {
      smallest := gains[0];
      for m := 1 to c.chNum
        invariant smallest in gains[..m]
        invariant forall k | 0 <= k < m :: smallest <= gains[k]
      {
        if gains[m] < smallest {
          smallest := gains[m];
        }
      }
      assert smallest in gains && MinOf(gains) in gains;
    }

    /** Sends the gains, equal ones under unified control. */
    method SendGains()
      requires Valid()
      modifies this`gains, this`sent
      ensures Valid() && Abs() == ChangeGains(c, old(Abs())).0
      ensures sent == old(sent) + ChangeGains(c, old(Abs())).1
    {
      if c.unifiedGainControl {
        var smallest := SmallestGain();
        gains := Repeat(smallest, c.chNum);
      }
      var values: seq<nat> := [];
      for m := 0 to c.chNum
        invariant values == GainValues(c, gains)[..m]
      {
        values := values + [VALID_GAINS[gains[m]]];
      }
      assert values == GainValues(c, gains);
      sent := sent + [Daq.SetGains(values)];
    }

    method GainsReported(h: IqHeader) returns (ready: bool)
      requires Valid() && |h.ifGains| == 32
      ensures ready == GainsMatch(c, gains, h)
    {
      ready := true;
      for m := 0 to c.chNum
        invariant ready == forall k | 0 <= k < m :: VALID_GAINS[gains[k]] == h.ifGains[k]
      {
        if VALID_GAINS[gains[m]] != h.ifGains[m] {
          ready := false;
        }
      }
    }

    /** One channel of gain tuning. */
    method TuneChannel(h: IqHeader, m: nat)
      requires Valid() && m < c.chNum
      modifies this`gains, this`gainTuneStates
      ensures Valid()
      ensures (gains, gainTuneStates) == TuneOne(c, h.adcOverdriveFlags, old(gains), old(gainTuneStates), m)
    {
      if Bit(h.adcOverdriveFlags, m) {
        if gains[m] != 0 {
          gains := gains[m := gains[m] - 1];
        }
        gainTuneStates := gainTuneStates[m := false];
        if c.unifiedGainControl {
          gainTuneStates := Repeat(false, c.chNum);
        }
      }
      if gainTuneStates[m] {
        if gains[m] < MAX_GAIN_INDEX {
          gains := gains[m := gains[m] + 1];
        } else {
          gainTuneStates := gainTuneStates[m := false];
          if c.unifiedGainControl {
            gainTuneStates := Repeat(false, c.chNum);
          }
        }
      }
    }

    method Tune(h: IqHeader)
      requires Valid() && |h.ifGains| == 32
      modifies this`gains, this`gainTuneStates, this`sent
      ensures Valid() && Abs() == TuneGains(c, old(Abs()), h).0
      ensures sent == old(sent) + TuneGains(c, old(Abs()), h).1
    {
      var reported := GainsReported(h);
      if !reported {
        return;
      }
      for m := 0 to c.chNum
        invariant Valid()
        invariant (gains, gainTuneStates) ==
                  TuneUpTo(c, h.adcOverdriveFlags, old(gains), old(gainTuneStates), m)
        modifies this`gains, this`gainTuneStates
      {
        TuneChannel(h, m);
      }
      SendGains();
    }

    /** The position of the first calibration frequency at the smallest distance. */
    method NearestCalFreq(freq: nat) returns (i: nat)
      ensures i == Nearest(freq, |CAL_FREQS|)
    {
      i := 0;
      for n := 1 to |CAL_FREQS|
        invariant i == Nearest(freq, n)
      {
        if Distance(CAL_FREQS[n], freq) < Distance(CAL_FREQS[i], freq) {
          i := n;
        }
      }
    }

    method SaveGains(freq: nat)
      requires Valid()
      modifies this`gains, this`lastGains
      ensures Valid() && lastGains == old(gains) && gains == Repeat(CalGain(freq), c.chNum)
    {
      for m := 0 to c.chNum
        invariant |lastGains| == |gains| == c.chNum
        invariant lastGains[..m] == old(gains)[..m]
        invariant forall k | 0 <= k < c.chNum :: lastGains[k] <= MAX_GAIN_INDEX
        invariant forall k | 0 <= k < c.chNum :: gains[k] == if k < m then CalGain(freq) else old(gains)[k]
        modifies this`gains, this`lastGains
      {
        lastGains := lastGains[m := gains[m]];
        var i := NearestCalFreq(freq);
        gains := gains[m := CAL_GAINS[i]];
      }
    }

    method NoiseSourceOn(freq: nat)
      requires Valid()
      modifies this
      ensures Valid() && Abs() == NoiseOn(c, old(Abs()), freq).0
      ensures sent == old(sent) + NoiseOn(c, old(Abs()), freq).1
    {
      lastAgc := agc;
      agc := false;
      SaveGains(freq);
      SendGains();
      sent := sent + [Daq.SwitchNoise(true)];
      noiseSourceState := true;
      currentState := StateNoiseCtrWait;
    }

    method RestoreGains()
      requires Valid()
      modifies this`gains
      ensures Valid() && gains == lastGains
    {
      for m := 0 to c.chNum
        invariant |gains| == c.chNum && gains[..m] == lastGains[..m]
        invariant forall k | 0 <= k < c.chNum :: gains[k] <= MAX_GAIN_INDEX
        modifies this`gains
      {
        gains := gains[m := lastGains[m]];
      }
    }

    method NoiseSourceOff()
      requires Valid()
      modifies this
      ensures Valid() && Abs() == NoiseOff(c, old(Abs())).0
      ensures sent == old(sent) + NoiseOff(c, old(Abs())).1
    {
      sent := sent + [Daq.SwitchNoise(false)];
      noiseSourceState := false;
      RestoreGains();
      SendGains();
      agc := lastAgc;
      if agc {
        sent := sent + [Daq.EnableAgc];
      }
      currentState := StateNoiseCtrWait;
    }

    /** Stores requested gain values as indices, up to the first unsupported value. */
    method StoreLastGains(values: seq<nat>) returns (ok: bool)
      requires Valid() && |values| == c.chNum
      modifies this`lastGains
      ensures Valid() && (lastGains, ok) == Overwrite(old(lastGains), values, 0)
    {
      hide GainIndex;
      for m := 0 to c.chNum
        invariant Valid()
        invariant Overwrite(lastGains, values, m) == Overwrite(old(lastGains), values, 0)
        modifies this`lastGains
      {
        var i := GainIndex(values[m]);
        if i.None? {
          return false;
        }
        lastGains := lastGains[m := i.value];
      }
      ok := true;
    }

    method StoreGains(values: seq<nat>) returns (ok: bool)
      requires Valid() && |values| == c.chNum
      modifies this`gains
      ensures Valid() && (gains, ok) == Overwrite(old(gains), values, 0)
    {
      hide GainIndex;
      for m := 0 to c.chNum
        invariant Valid()
        invariant Overwrite(gains, values, m) == Overwrite(old(gains), values, 0)
        modifies this`gains
      {
        var i := GainIndex(values[m]);
        if i.None? {
          return false;
        }
        gains := gains[m := i.value];
      }
      ok := true;
    }

    method HandleControlRequest(r: Request)
      requires Valid() && ValidRequest(c, Some(r))
      modifies this
      ensures Valid() && Abs() == HandleRequest(c, old(Abs()), r).0
      ensures sent == old(sent) + HandleRequest(c, old(Abs()), r).1
    {
      match r {
        case Freq(freq) =>
          sent := sent + [Daq.Tune(freq)];
        case Gain(values) =>
          var ok;
          if noiseSourceState {
            ok := StoreLastGains(values);
          } else {
            ok := StoreGains(values);
            if ok {
              SendGains();
            }
          }
          if ok {
            agc := false;
          }
        case Agc =>
          if noiseSourceState {
            lastAgc := true;
          } else {
            agc := true;
            sent := sent + [Daq.EnableAgc];
          }
        case Other =>
      }
    }

    /** The states before calibration. */
    method Prepare(h: IqHeader)
      requires Valid() && |h.ifGains| == 32 && !IsDummy(h)
      requires currentState.StateInit? || currentState.StateGainCtrWait? || currentState.StateGainTune?
      modifies this
      ensures Valid() && Abs() == ProcessFrame(c, old(Abs()), h, true, None).0
      ensures sent == old(sent) + ProcessFrame(c, old(Abs()), h, true, None).1
    {
      match currentState {
        case StateInit =>
          SendGains();
          sent := sent + [Daq.SwitchNoise(false)];
          currentState := if true in gainTuneStates then StateGainCtrWait else StateIqCal;
        case StateGainCtrWait =>
          var ready := GainsReported(h);
          if ready {
            currentState := StateGainTune;
          }
        case StateGainTune =>
          if h.adcOverdriveFlags != 0 || true in gainTuneStates {
            Tune(h);
            currentState := StateGainCtrWait;
            gainLockCntr := 0;
          } else if gainLockCntr == c.gainLockInterval {
            currentState := StateIqCal;
            gainLockCntr := 0;
          } else {
            gainLockCntr := gainLockCntr + 1;
          }
      }
    }

    /** Noise source control that follows the synchronizer. */
    method ControlNoise(h: IqHeader, approval: bool)
      requires Valid()
      modifies this
      ensures Valid() && Abs() == FollowSync(c, old(Abs()), h, approval).0
      ensures sent == old(sent) + FollowSync(c, old(Abs()), h, approval).1
    {
      if c.calTrackMode == 0 || c.calTrackMode == 1 || (c.calTrackMode == 2 && calFrameCntr < c.calFrameInterval) {
        if h.syncState < 5 {
          if h.noiseSourceState == 0 {
            NoiseSourceOn(h.rfCenterFreq);
          }
        } else if h.noiseSourceState == 1 {
          var trackLockApproval := true;
          if c.requireTrackLockIntervention {
            trackLockApproval := approval;
          }
          if trackLockApproval {
            NoiseSourceOff();
          }
        }
      }
    }

    /** Burst calibration frames. */
    method CountBurst(h: IqHeader)
      requires Valid()
      modifies this
      ensures Valid() && Abs() == Burst(c, old(Abs()), h).0
      ensures sent == old(sent) + Burst(c, old(Abs()), h).1
    {
      if c.calTrackMode == 2 {
        if h.syncState == 6 {
          calFrameCntr := calFrameCntr + 1;
          if calFrameCntr == c.calFrameInterval {
            NoiseSourceOn(h.rfCenterFreq);
          } else if calFrameCntr == c.calFrameInterval + c.calFrameBurstSize {
            NoiseSourceOff();
            calFrameCntr := 0;
          }
        } else {
          calFrameCntr := 0;
        }
      }
    }

    /** One turn of the processing loop on the frame with header `h`. */
    method HandleFrame(h: IqHeader, approval: bool, request: Option<Request>)
      requires Valid() && |h.ifGains| == 32 && ValidRequest(c, request)
      modifies this
      ensures Valid() && Abs() == ProcessFrame(c, old(Abs()), h, approval, request).0
      ensures sent == old(sent) + ProcessFrame(c, old(Abs()), h, approval, request).1
    {
      hide NoiseOn, NoiseOff, Burst, FollowSync, HandleRequest, ChangeGains, TuneGains;
      if h.frameType != FRAME_TYPE_DUMMY {
        match currentState {
          case StateIqCal =>
            ControlNoise(h, approval);
            CountBurst(h);
            if request.Some? {
              HandleControlRequest(request.value);
            }
          case StateNoiseCtrWait =>
            var ready := GainsReported(h);
            if (if noiseSourceState then 1 else 0) == h.noiseSourceState && ready {
              currentState := StateIqCal;
            }
          case _ =>
            Prepare(h);
        }
      }
    }
  }
}
