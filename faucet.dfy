/** The faucet of the irrigation computer package (icomputer/faucet.py): a
    named outlet that is open or closed, knows whether it was the only open
    faucet on its water counter, and keeps the flow samples of its current
    open interval. */
module Faucet {
  import opened Wrappers
  import opened FaucetTypes
  import Stats

  /** The three answers of `get_median_flow`. */
  datatype MedianFlow = NoCounter | NotAlone | MedianValue(value: real)

  /** The mutable part of a faucet. `allAloneAllTime` is an attribute that
      only the controller tick creates, so it starts out absent. */
  datatype FaucetState = FaucetState(isOpen: bool, allAlone: bool, allAloneAllTime: Option<bool>, flowCounts: seq<int>)

  /** The counter name meaning "not metered". */
  const NoCounterName := "none"

  /** The state after `open()`. */
  function Opened(v: FaucetState): FaucetState {
    v.(isOpen := true, allAlone := true, flowCounts := [])
  }

  /** The state after `close()`. */
  function Closed(v: FaucetState): FaucetState {
    v.(isOpen := false)
  }

  /** The state after one flow reading is recorded, if there is one. */
  function Recorded(v: FaucetState, sample: Option<int>): FaucetState {
    if sample.Some? then v.(flowCounts := v.flowCounts + [sample.value]) else v
  }

  /** `get_median_flow` on the counter name and the samples. */
  function MedianFlowOf(counter: string, flowCounts: seq<int>): MedianFlow {
    if counter == NoCounterName then NoCounter
    else if |flowCounts| < 1 then NotAlone
    else MedianValue(Stats.Median(flowCounts))
  }

  class Faucet {
    const name: string
    const computerName: Option<string>
    const localComputerName: string
    const faucetType: string
    const relayIdx: RelayIdx
    const counter: string
    const defaultDuration: int
    var isOpen: bool
    var allAlone: bool
    var allAloneAllTime: Option<bool>
    var flowCounts: seq<int>

    function View(): FaucetState
      reads this
    {
      FaucetState(isOpen, allAlone, allAloneAllTime, flowCounts)
    }

    constructor (name: string, computerName: Option<string>, localComputerName: string,
                 faucetType: string := "generic", relay: RelayIdx := RelayName("0"),
                 counter: string := "none", defaultDuration: int := 30)
      ensures this.name == name && this.computerName == computerName
      ensures this.localComputerName == localComputerName && this.faucetType == faucetType
      ensures this.relayIdx == relay && this.counter == counter
      ensures this.defaultDuration == defaultDuration
      ensures View() == FaucetState(false, false, None, [])
    {
      this.name := name;
      this.computerName := computerName;
      this.localComputerName := localComputerName;
      this.faucetType := faucetType;
      this.relayIdx := relay;
      this.counter := counter;
      this.defaultDuration := defaultDuration;
      isOpen := false;
      allAlone := false;
      allAloneAllTime := None;
      flowCounts := [];
    }

    /** Water on: open, alone so far, no samples yet. Always answers false. */
    method Open() returns (r: bool)
      modifies this
      ensures View() == Opened(old(View()))
      ensures !r
    {
      isOpen := true;
      allAlone := true;
      flowCounts := [];
      r := false;
    }

    /** Water off; the alone flag and the samples stay for the median. */
    method Close() returns (r: bool)
      modifies this
      ensures View() == Closed(old(View()))
      ensures !r
    {
      isOpen := false;
      r := false;
    }

    /** The counter collaborator's reading appended to the samples. */
    method AddFlowCount(sample: Option<int>)
      modifies this
      ensures View() == Recorded(old(View()), sample)
    {
      if sample.Some? {
        flowCounts := flowCounts + [sample.value];
      }
    }

    /** `get_median_flow`: "no counter" without a counter, "not alone"
        without samples, and otherwise a median of the samples. */
    function GetMedianFlow(): (r: MedianFlow)
      reads this
      ensures counter == NoCounterName ==> r == NoCounter
      ensures counter != NoCounterName && flowCounts == [] ==> r == NotAlone
      ensures counter != NoCounterName && flowCounts != [] ==>
                r.MedianValue? &&
                2 * Stats.CountAtMost(flowCounts, r.value) >= |flowCounts| &&
                2 * Stats.CountAtLeast(flowCounts, r.value) >= |flowCounts|
    {
      if counter == NoCounterName then MedianFlowOf(counter, flowCounts)
      else
        MeteredMedian(counter, flowCounts);
        MedianFlowOf(counter, flowCounts)
    }
  }

  /** One call on a faucet, for reasoning about call sequences. */
  datatype Call = OpenCall | CloseCall | SampleCall(sample: int) | SetNotAlone

  function Apply(v: FaucetState, c: Call): FaucetState {
    match c
    case OpenCall => Opened(v)
    case CloseCall => Closed(v)
    case SampleCall(x) => Recorded(v, Some(x))
    case SetNotAlone => v.(allAlone := false)
  }

  function Run(v: FaucetState, calls: seq<Call>): FaucetState
    decreases |calls|
  {
    if calls == [] then v else Run(Apply(v, calls[0]), calls[1..])
  }

  /** Index of the last open or close call, if any. */
  function LastSwitch(calls: seq<Call>): Option<nat>
    ensures LastSwitch(calls).Some? ==> LastSwitch(calls).value < |calls|
  {
    if calls == [] then None
    else if calls[|calls| - 1].OpenCall? || calls[|calls| - 1].CloseCall? then Some(|calls| - 1)
    else LastSwitch(calls[..|calls| - 1])
  }

  lemma {:induction false} RunSnoc(v: FaucetState, calls: seq<Call>, c: Call)
    ensures Run(v, calls + [c]) == Apply(Run(v, calls), c)
    decreases |calls|
  {
    if calls != [] {
      assert (calls + [c])[1..] == calls[1..] + [c];
      RunSnoc(Apply(v, calls[0]), calls[1..], c);
    }
  }

  /** After any sequence of calls the faucet is open exactly when the most
      recent open-or-close call was an open (or, with none, as it started). */
  lemma {:induction false} OpenIffLastSwitchWasOpen(v: FaucetState, calls: seq<Call>)
    ensures Run(v, calls).isOpen == match LastSwitch(calls)
                                    case None => v.isOpen
                                    case Some(i) => calls[i].OpenCall?
  {
    if calls != [] {
      var init := calls[..|calls| - 1];
      assert calls == init + [calls[|calls| - 1]];
      RunSnoc(v, init, calls[|calls| - 1]);
      OpenIffLastSwitchWasOpen(v, init);
    }
  }

  /** Samples recorded after the last open are exactly the samples held. */
  function SamplesOf(calls: seq<Call>): seq<int> {
    if calls == [] then []
    else
      var c := calls[|calls| - 1];
      var before := SamplesOf(calls[..|calls| - 1]);
      if c.SampleCall? then before + [c.sample] else before
  }

  function SinceLastOpen(calls: seq<Call>): seq<Call> {
    if calls == [] then []
    else if calls[|calls| - 1].OpenCall? then []
    else SinceLastOpen(calls[..|calls| - 1]) + [calls[|calls| - 1]]
  }

  /** Once a faucet has been opened, its samples are those recorded since the
      most recent open: every open discards earlier readings. */
  lemma {:induction false} SamplesSinceLastOpen(v: FaucetState, calls: seq<Call>)
    requires OpenCall in calls
    ensures Run(v, calls).flowCounts == SamplesOf(SinceLastOpen(calls))
  {
    var init := calls[..|calls| - 1];
    var c := calls[|calls| - 1];
    assert calls == init + [c];
    RunSnoc(v, init, c);
    if !c.OpenCall? {
      assert OpenCall in init;
      SamplesSinceLastOpen(v, init);
      assert (SinceLastOpen(init) + [c])[..|SinceLastOpen(init) + [c]| - 1] == SinceLastOpen(init);
    }
  }

  /** Closing never resets the alone flag (a second consumer recorded while
      open is still visible after close). */
  lemma CloseKeepsNotAlone(v: FaucetState)
    ensures Run(v, [OpenCall, SetNotAlone, CloseCall]).allAlone == false
    ensures Run(v, [OpenCall, SetNotAlone, CloseCall]).isOpen == false
  {
    assert [OpenCall, SetNotAlone, CloseCall][1..] == [SetNotAlone, CloseCall];
    assert [SetNotAlone, CloseCall][1..] == [CloseCall];
  }

  /** Without a counter the median is never available, whatever the samples. */
  lemma NoCounterAlways(samples: seq<int>)
    ensures MedianFlowOf(NoCounterName, samples) == NoCounter
  {
  }

  /** A metered faucet without samples reports "not alone"; with samples it
      reports a value that splits the samples in halves. */
  lemma MeteredMedian(counter: string, samples: seq<int>)
    requires counter != NoCounterName
    ensures samples == [] ==> MedianFlowOf(counter, samples) == NotAlone
    ensures samples != [] ==> MedianFlowOf(counter, samples).MedianValue?
    ensures samples != [] ==>
      var m := MedianFlowOf(counter, samples).value;
      2 * Stats.CountAtMost(samples, m) >= |samples| && 2 * Stats.CountAtLeast(samples, m) >= |samples|
  {
    if samples != [] {
      Stats.MedianSplitsSamples(samples);
    }
  }

  /** Opening, then recording 2, 4 and 6, gives the median 4. */
  lemma MedianAfterThreeSamples(v: FaucetState)
    ensures MedianFlowOf("c1", Run(v, [OpenCall, SampleCall(2), SampleCall(4), SampleCall(6)]).flowCounts) == MedianValue(4.0)
  {
    var calls := [OpenCall, SampleCall(2), SampleCall(4), SampleCall(6)];
    assert calls[1..] == [SampleCall(2), SampleCall(4), SampleCall(6)];
    assert calls[1..][1..] == [SampleCall(4), SampleCall(6)];
    assert calls[1..][1..][1..] == [SampleCall(6)];
    assert Run(v, calls).flowCounts == [2, 4, 6];
    Stats.MedianOfThree();
  }
}
