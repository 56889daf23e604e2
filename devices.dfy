/** `_find_input_device` (hello.py): the audio input chosen at start-up. */
module Devices {
  import opened Values

  /** The index of the first device whose `maxInputChannels` is positive, or
      `None` where the source logs "No input devices found!" and exits. The
      device table is given by its column of input-channel counts. */
  method FindInputDevice(maxInputChannels: seq<int>) returns (device: Option<nat>)
    ensures device.Some? ==>
      device.value < |maxInputChannels| && maxInputChannels[device.value] > 0
    ensures device.Some? ==> forall j :: 0 <= j < device.value ==> maxInputChannels[j] <= 0
    ensures device.None? ==> forall j :: 0 <= j < |maxInputChannels| ==> maxInputChannels[j] <= 0
  {
    var i := 0;
    while i < |maxInputChannels|
      invariant 0 <= i <= |maxInputChannels|
      invariant forall j :: 0 <= j < i ==> maxInputChannels[j] <= 0
    {
      if maxInputChannels[i] > 0 {
        return Some(i);
      }
      i := i + 1;
    }
    return None;
  }
}
