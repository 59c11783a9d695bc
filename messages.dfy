/**
 * Outbound OSC messages: an address label and an ordered list of values.
 * The message object is filled in place, as the handlers of myo_raw_osc.py
 * do (`setAddress`, then one `append` per argument; appending a list or
 * tuple appends each of its elements in order). Serialisation and the UDP
 * transport are not part of this model.
 */
module Messages {
  import opened Wrappers
  import opened Sensor

  const EMG_ADDRESS: string := "/myo/emg"
  const IMU_ADDRESS: string := "/myo/imu"

  datatype Value = Int(i: int) | Float(f: real)

  datatype Message = Message(address: string, payload: seq<Value>)

  /** A message under construction. */
  class OscMessage {
    var address: string
    var payload: seq<Value>

    constructor ()
      ensures address == "" && payload == []
    {
      address := "";
      payload := [];
    }

    function Contents(): Message
      reads this
    {
      Message(address, payload)
    }

    method SetAddress(a: string)
      modifies this
      ensures address == a && payload == old(payload)
    {
      address := a;
    }

    /** Appends every element of `vs`, in order. */
    method Append(vs: seq<Value>)
      modifies this
      ensures payload == old(payload) + vs && address == old(address)
    {
      payload := payload + vs;
    }
  }

  function Ints(xs: seq<int>): (vs: seq<Value>)
    ensures |vs| == |xs|
    ensures forall i :: 0 <= i < |xs| ==> vs[i] == Int(xs[i])
  {
    if xs == [] then [] else [Int(xs[0])] + Ints(xs[1..])
  }

  function Floats(xs: seq<real>): (vs: seq<Value>)
    ensures |vs| == |xs|
    ensures forall i :: 0 <= i < |xs| ==> vs[i] == Float(xs[i])
  {
    if xs == [] then [] else [Float(xs[0])] + Floats(xs[1..])
  }

  /** Reads a payload back as integers; `None` if some value is not one. */
  function AsInts(vs: seq<Value>): Option<seq<int>> {
    if vs == [] then Some([])
    else match (vs[0], AsInts(vs[1..]))
      case (Int(n), Some(rest)) => Some([n] + rest)
      case _ => None
  }

  /** Reads a payload back as reals; `None` if some value is not one. */
  function AsFloats(vs: seq<Value>): Option<seq<real>> {
    if vs == [] then Some([])
    else match (vs[0], AsFloats(vs[1..]))
      case (Float(f), Some(rest)) => Some([f] + rest)
      case _ => None
  }

  /** Splits an IMU payload into its leading orientation and its trailing acceleration triple. */
  function AsImu(vs: seq<Value>): Option<(seq<real>, Vec3)> {
    if |vs| < 3 then None
    else
      var n := |vs| - 3;
      match (AsFloats(vs[..n]), vs[n], vs[n + 1], vs[n + 2])
      case (Some(o), Float(x), Float(y), Float(z)) => Some((o, Vec3(x, y, z)))
      case _ => None
  }

  lemma {:induction false} IntsRoundTrip(xs: seq<int>)
    ensures AsInts(Ints(xs)) == Some(xs)
  {
    if xs != [] {
      IntsRoundTrip(xs[1..]);
      assert Ints(xs)[1..] == Ints(xs[1..]);
      assert [xs[0]] + xs[1..] == xs;
    }
  }

  lemma {:induction false} FloatsRoundTrip(xs: seq<real>)
    ensures AsFloats(Floats(xs)) == Some(xs)
  {
    if xs != [] {
      FloatsRoundTrip(xs[1..]);
      assert Floats(xs)[1..] == Floats(xs[1..]);
      assert [xs[0]] + xs[1..] == xs;
    }
  }

  /**
   * The message `proc_emg_osc` sends: address "/myo/emg" and one value per
   * EMG reading.
   */
  function EmgMessage(emg: seq<int>): (m: Message)
    ensures m.address == EMG_ADDRESS
    ensures |m.payload| == |emg|
  {
    Message(EMG_ADDRESS, Ints(emg))
  }

  /**
   * The EMG payload is exactly the readings in their order (eight of them
   * for a sample of eight channels).
   */
  lemma EmgMessageRoundTrip(emg: seq<int>)
    ensures AsInts(EmgMessage(emg).payload) == Some(emg)
  {
    IntsRoundTrip(emg);
  }

  /**
   * The message `proc_imu_osc` sends: address "/myo/imu" and the orientation
   * values followed by the three acceleration components.
   */
  function ImuMessage(orientation: seq<real>, acc: Vec3): (m: Message)
    ensures m.address == IMU_ADDRESS
    ensures |m.payload| == |orientation| + 3
  {
    Message(IMU_ADDRESS, Floats(orientation) + Floats(acc.Values()))
  }

  /** The IMU payload splits back into exactly that orientation and that acceleration. */
  lemma ImuMessageRoundTrip(orientation: seq<real>, acc: Vec3)
    ensures AsImu(ImuMessage(orientation, acc).payload) == Some((orientation, acc))
  {
    var vs := ImuMessage(orientation, acc).payload;
    assert vs[..|orientation|] == Floats(orientation);
    FloatsRoundTrip(orientation);
  }
}
