/** `PointCloudSubscriber`: receives `sensor_msgs/PointCloud2` messages and
    decodes the latest one, once per frame, into a vertex array and a colour
    array. Each point is a record of `point_step` bytes: little-endian 32-bit
    floats x, y and z at offsets 0, 4 and 8, and the colour bytes blue, green
    and red at offsets 16, 17 and 18. The vertex is stored as `(-y, z, x)` and
    each colour channel as its byte divided by 255. */
module Subscription {
  import opened Geometry

  newtype uint8 = b: int | 0 <= b < 0x100
  newtype uint32 = n: int | 0 <= n < 0x1_0000_0000

  /** The two fields of a message the decoder reads. */
  datatype PointCloud2 = PointCloud2(data: seq<uint8>, pointStep: uint32)

  /** `(int)` of a `uint32`: values from 2^31 up wrap to negative. */
  function ToInt32(u: uint32): (n: int)
    ensures -0x8000_0000 <= n < 0x8000_0000
    ensures n as int % 0x1_0000_0000 == u as int
  {
    if u < 0x8000_0000 then u as int else u as int - 0x1_0000_0000
  }

  /** `len / step` with the language's integer division, which truncates
      towards zero. */
  function TruncDiv(len: nat, step: int): (q: int)
    requires step != 0
    ensures step > 0 ==> q >= 0 && q * step <= len < (q + 1) * step
    ensures step < 0 ==> q <= 0 && -q * -step <= len < (-q + 1) * -step
  {
    if step > 0 then len / step else -(len / -step)
  }

  /** The reads of point i fall inside the data: its red byte, the last one
      read, is at `i * step + 18`. */
  predicate Fits(len: int, step: int, i: int)
  {
    i * step + 18 < len
  }

  /** `BitConverter.ToSingle(data, at)`: the float whose four little-endian
      bytes start at `at`, or None (an exception) when fewer than four bytes
      remain. The decoding of the bytes is kept abstract as `single`. */
  function ReadSingle(data: seq<uint8>, at: int, single: seq<uint8> -> real): Option<real>
  {
    if 0 <= at && at + 4 <= |data| then Some(single(data[at..at + 4])) else None
  }

  /** `data[at]` as a float, or None (an exception) outside the array. */
  function ReadByte(data: seq<uint8>, at: int): Option<real>
  {
    if 0 <= at < |data| then Some(data[at] as int as real) else None
  }

  /** The vertex of point i: `(-y, z, x)`. */
  function PointAt(data: seq<uint8>, step: int, i: int, single: seq<uint8> -> real): Vec3
    requires 0 <= i && step > 0 && Fits(|data|, step, i)
  {
    var at := i * step;
    Vec3(-single(data[at + 4..at + 8]), single(data[at + 8..at + 12]), single(data[at..at + 4]))
  }

  /** The colour of point i: red at +18, green at +17, blue at +16, each over
      255, and `new Color(r, g, b)` sets alpha to 1. */
  function ColorOf(data: seq<uint8>, step: int, i: int): (c: Color)
    requires 0 <= i && step > 0 && Fits(|data|, step, i)
    ensures 0.0 <= c.r <= 1.0 && 0.0 <= c.g <= 1.0 && 0.0 <= c.b <= 1.0 && c.a == 1.0
  {
    var at := i * step + 16;
    Color(data[at + 2] as int as real / 255.0, data[at + 1] as int as real / 255.0, data[at] as int as real / 255.0, 1.0)
  }

  /** Once one point fits, every earlier point fits. */
  lemma FitsBelow(len: int, step: int, i: int, j: int)
    requires step > 0 && 0 <= j <= i && Fits(len, step, i)
    ensures Fits(len, step, j)
  {
    assert j * step <= i * step by {
      assert (i - j) * step >= 0;
    }
  }

  /** A record of at least 19 bytes holds all the bytes its point reads, so
      a message decodes without a fault whatever its length. */
  lemma WideRecordsFit(len: nat, step: int)
    requires step >= 19
    ensures forall i :: 0 <= i < TruncDiv(len, step) ==> Fits(len, step, i)
  {
    var count := TruncDiv(len, step);
    forall i | 0 <= i < count
      ensures Fits(len, step, i)
    {
      assert (count - 1 - i) * step >= 0;
      assert i * step + step <= count * step;
    }
  }

  /** With whole records only (the length a multiple of the step), the last
      point reads past the data exactly when the record is shorter than 19
      bytes. */
  lemma LastFitsIffWide(len: nat, step: int)
    requires step > 0 && len > 0 && len % step == 0
    ensures TruncDiv(len, step) >= 1
    ensures Fits(len, step, TruncDiv(len, step) - 1) <==> step >= 19
  {
    var count := TruncDiv(len, step);
    assert len == count * step;
    assert (count - 1) * step + 18 == len - step + 18;
  }

  class PointCloudSubscriber {
    /** `BitConverter.ToSingle` on four bytes. */
    const single: seq<uint8> -> real

    var isMessageReceived: bool
    var pointcloud: Option<PointCloud2>
    var byteArray: Option<seq<uint8>>
    var pcSize: int
    var pointStep: int
    var pcVertices: array?<Vec3>
    var pcColors: array?<Color>

    /** A raised flag has a message to decode, and the two arrays are published
        together, with one colour per vertex. */
    ghost predicate Valid()
      reads this`isMessageReceived, this`pointcloud, this`pcVertices, this`pcColors
    {
      && (isMessageReceived ==> pointcloud.Some?)
      && (pcVertices == null <==> pcColors == null)
      && (pcVertices != null ==> pcVertices.Length == pcColors.Length)
    }

    /** A component after `Start`: no message yet and no arrays. */
    constructor (single: seq<uint8> -> real)
      ensures Valid() && this.single == single && !isMessageReceived && pointcloud.None?
      ensures pcVertices == null && pcColors == null
    {
      this.single := single;
      isMessageReceived := false;
      pointcloud := None;
      byteArray := None;
      pcSize, pointStep := 0, 0;
      pcVertices, pcColors := null, null;
    }

    /** `getPC_vertices`. */
    function GetVertices(): (vs: array?<Vec3>)
      requires Valid()
      reads this`isMessageReceived, this`pointcloud, this`pcVertices, this`pcColors
      ensures (vs == null) == (GetColors() == null)
    {
      pcVertices
    }

    /** `getPC_colors`: present exactly when the vertices are, one per vertex. */
    function GetColors(): (cs: array?<Color>)
      requires Valid()
      reads this`isMessageReceived, this`pointcloud, this`pcVertices, this`pcColors
      ensures cs != null ==> pcVertices != null && cs.Length == pcVertices.Length
    {
      pcColors
    }

    /** `ReceiveMessage`: a non-null message is kept and raises the flag; a
        null one changes nothing. */
    method ReceiveMessage(msg: Option<PointCloud2>)
      requires Valid()
      modifies this`pointcloud, this`isMessageReceived
      ensures Valid()
      ensures msg.Some? ==> pointcloud == msg && isMessageReceived
      ensures msg.None? ==> pointcloud == old(pointcloud) && isMessageReceived == old(isMessageReceived)
    {
      if msg.Some? {
        pointcloud := msg;
        isMessageReceived := true;
      }
    }

    /** `Update`, one frame: a raised flag has the kept message decoded and is
        then lowered; a decoding that faults leaves it raised. */
    method Update() returns (fault: bool)
      requires Valid()
      modifies this
      ensures Valid() && pointcloud == old(pointcloud)
      ensures !old(isMessageReceived) ==> !fault && unchanged(this)
      ensures old(isMessageReceived) ==> Decoded(pointcloud.value, fault) && isMessageReceived == fault
    {
      if !isMessageReceived {
        return false;
      }
      fault := ProcessMessage(pointcloud.value);
      if fault {
        return;
      }
      isMessageReceived := false;
    }

    /** What decoding `msg` leaves. The byte array is the message's data and
        the step its `point_step` as `int`. A step of 0 faults on the division;
        a negative count faults on the allocation; otherwise both arrays are
        fresh with one entry per whole record, every point that fits is
        decoded, the rest keep the zero vertex and zero colour, and the
        decoding faults exactly when the last point does not fit. */
    ghost predicate Decoded(msg: PointCloud2, fault: bool)
      reads this`byteArray, this`pointStep, this`pcSize, this`pcVertices, this`pcColors, pcVertices, pcColors
    {
      && byteArray == Some(msg.data)
      && pointStep == ToInt32(msg.pointStep)
      && (pointStep == 0 ==> fault && pcSize == |msg.data|)
      && (pointStep != 0 ==> pcSize == TruncDiv(|msg.data|, pointStep))
      && (pointStep != 0 && pcSize < 0 ==> fault)
      && (pointStep != 0 && pcSize >= 0 ==>
            && pcVertices != null && pcColors != null
            && pcVertices.Length == pcSize && pcColors.Length == pcSize
            && fault == (pcSize > 0 && !Fits(|msg.data|, pointStep, pcSize - 1))
            && (pcSize > 0 ==> pointStep > 0)
            && forall i :: 0 <= i < pcSize ==>
                 if pointStep > 0 && Fits(|msg.data|, pointStep, i)
                 then pcVertices[i] == PointAt(msg.data, pointStep, i, single) && pcColors[i] == ColorOf(msg.data, pointStep, i)
                 else pcVertices[i] == Vec3(0.0, 0.0, 0.0) && pcColors[i] == Clear)
    }

    /** `ProcessMessage`: the fields are set in the order the source sets
        them, and the loop decodes point after point until the first read past
        the data. */
    method ProcessMessage(msg: PointCloud2) returns (fault: bool)
      requires Valid()
      modifies this`pcSize, this`byteArray, this`pointStep, this`pcVertices, this`pcColors
      ensures Valid() && Decoded(msg, fault)
      ensures fault && (pointStep == 0 || pcSize < 0) ==> pcVertices == old(pcVertices) && pcColors == old(pcColors)
      ensures pointStep != 0 && pcSize >= 0 ==> fresh(pcVertices) && fresh(pcColors)
    {
      var data := msg.data;
      pcSize := |data|;
      byteArray := Some(data);
      pointStep := ToInt32(msg.pointStep);
      if pointStep == 0 {
        return true;
      }
      pcSize := TruncDiv(pcSize, pointStep);
      if pcSize < 0 {
        return true;
      }
      var step, count := pointStep, pcSize;
      var vs := new Vec3[count]((_) => Vec3(0.0, 0.0, 0.0));
      var cs := new Color[count]((_) => Clear);
      pcVertices, pcColors := vs, cs;
      fault := DecodePoints(data, step, vs, cs);
    }

    /** The body of the loop of `ProcessMessage` for point i: the three float
        reads and the three byte reads, in the source's order; `ok` is false
        when one of them falls outside the data. */
    method DecodePoint(data: seq<uint8>, step: int, i: int) returns (ok: bool, v: Vec3, c: Color)
      requires step > 0 && i >= 0
      ensures ok == Fits(|data|, step, i)
      ensures ok ==> v == PointAt(data, step, i, single) && c == ColorOf(data, step, i)
    {
      var xByte, yByte, zByte := i * step + 0, i * step + 4, i * step + 8;
      var x := ReadSingle(data, xByte, single);
      var y := ReadSingle(data, yByte, single);
      var z := ReadSingle(data, zByte, single);
      var rgbByte := i * step + 16;
      var r := ReadByte(data, rgbByte + 2);
      var g := ReadByte(data, rgbByte + 1);
      var b := ReadByte(data, rgbByte + 0);
      if x.None? || y.None? || z.None? || r.None? || g.None? || b.None? {
        return false, Vec3(0.0, 0.0, 0.0), Clear;
      }
      v := Vec3(-y.value, z.value, x.value);
      c := Color(r.value / 255.0, g.value / 255.0, b.value / 255.0, 1.0);
      ok := true;
    }

    /** The loop of `ProcessMessage` over the freshly allocated arrays. */
    method DecodePoints(data: seq<uint8>, step: int, vs: array<Vec3>, cs: array<Color>) returns (fault: bool)
      requires vs.Length == cs.Length && step != 0 && vs.Length == TruncDiv(|data|, step)
      requires forall i :: 0 <= i < vs.Length ==> vs[i] == Vec3(0.0, 0.0, 0.0) && cs[i] == Clear
      modifies vs, cs
      ensures vs.Length > 0 ==> step > 0
      ensures fault == (vs.Length > 0 && !Fits(|data|, step, vs.Length - 1))
      ensures forall i :: 0 <= i < vs.Length ==>
        if step > 0 && Fits(|data|, step, i)
        then vs[i] == PointAt(data, step, i, single) && cs[i] == ColorOf(data, step, i)
        else vs[i] == Vec3(0.0, 0.0, 0.0) && cs[i] == Clear
    {
      var count := vs.Length;
      for i := 0 to count
        invariant forall j :: 0 <= j < i ==> step > 0 && Fits(|data|, step, j)
        invariant forall j :: 0 <= j < i ==> vs[j] == PointAt(data, step, j, single) && cs[j] == ColorOf(data, step, j)
        invariant forall j :: i <= j < count ==> vs[j] == Vec3(0.0, 0.0, 0.0) && cs[j] == Clear
      {
        var ok, v, c := DecodePoint(data, step, i);
        if !ok {
          NoFitAfter(|data|, step, i, count);
          return true;
        }
        vs[i], cs[i] := v, c;
      }
      if count > 0 {
        assert Fits(|data|, step, count - 1);
      }
      return false;
    }
  }

  /** Once one point does not fit, no later point does. */
  lemma NoFitAfter(len: int, step: int, i: int, count: int)
    requires step > 0 && 0 <= i < count && !Fits(len, step, i)
    ensures forall j :: i <= j < count ==> !Fits(len, step, j)
  {
    forall j | i <= j < count
      ensures !Fits(len, step, j)
    {
      if Fits(len, step, j) {
        FitsBelow(len, step, j, i);
      }
    }
  }
}
