/** The buffer-upload side of the renderer (`createBuffer`): a typed array is
    copied into a new device buffer bound either as vertex data
    (`ARRAY_BUFFER`) or as index data (`ELEMENT_ARRAY_BUFFER`), with static
    usage, and the caller keeps the returned handle.

    A `WebGLBuffer` is opaque; here a handle is the buffer's position in
    allocation order, and the device is the list of buffers allocated so far.
    Buffers are never freed or rewritten.
 */
module Device {

  type Handle = nat

  datatype Target = ArrayBuffer | ElementArrayBuffer

  /** The two typed arrays the renderer builds: `Float32Array` for attributes,
      `Uint16Array` for indices. */
  datatype TypedArray = Float32(floats: seq<real>) | Uint16(shorts: seq<int>)

  datatype Buffer = Buffer(target: Target, data: TypedArray)

  datatype Device = Device(buffers: seq<Buffer>)

  const Uint16Limit: int := 65536

  /** The element conversion `new Uint16Array(...)` applies to an integer:
      reduction modulo 2^16 into `0 .. 65535`. */
  function ToUint16(x: int): (r: int)
    ensures 0 <= r < Uint16Limit
    ensures 0 <= x < Uint16Limit ==> r == x
    ensures (r - x) % Uint16Limit == 0
  {
    x % Uint16Limit
  }

  /** `new Uint16Array(xs)`: one 16-bit entry per element, each in range and
      congruent to its source modulo 2^16, and an entry already in range
      copied unchanged. */
  function ToUint16Array(xs: seq<int>): (r: seq<int>)
    ensures |r| == |xs|
    ensures forall k :: 0 <= k < |xs| ==> r[k] == ToUint16(xs[k])
    ensures forall k :: 0 <= k < |xs| ==> 0 <= r[k] < Uint16Limit && (r[k] - xs[k]) % Uint16Limit == 0
    ensures forall k :: 0 <= k < |xs| && 0 <= xs[k] < Uint16Limit ==> r[k] == xs[k]
  {
    seq(|xs|, k requires 0 <= k < |xs| => ToUint16(xs[k]))
  }

  /** Converting to `Uint16Array` keeps an index list unchanged exactly when
      every index already lies in `0 .. 65535`. */
  lemma Uint16Exact(xs: seq<int>)
    ensures ToUint16Array(xs) == xs <==> forall k :: 0 <= k < |xs| ==> 0 <= xs[k] < Uint16Limit
  {
    if ToUint16Array(xs) == xs {
      forall k | 0 <= k < |xs|
        ensures 0 <= xs[k] < Uint16Limit
      {
        assert xs[k] == ToUint16Array(xs)[k];
      }
    }
  }

  /** The buffer stored under handle `h`, if any. */
  function Lookup(d: Device, h: Handle): (b: Option<Buffer>)
    ensures b.Some? <==> h < |d.buffers|
  {
    if h < |d.buffers| then Some(d.buffers[h]) else None
  }

  datatype Option<T> = None | Some(value: T)

  /** `createBuffer(data, isIndex)`: binds to the element-array target exactly
      when `isIndex` is true, uploads `data`, returns a fresh handle. Every
      buffer allocated before keeps its handle and contents. */
  function CreateBuffer(d: Device, data: TypedArray, isIndex: bool): (r: (Device, Handle))
    ensures Lookup(d, r.1).None?
    ensures Lookup(r.0, r.1) == Some(Buffer(if isIndex then ElementArrayBuffer else ArrayBuffer, data))
    ensures forall h :: Lookup(d, h).Some? ==> Lookup(r.0, h) == Lookup(d, h)
    ensures |r.0.buffers| == |d.buffers| + 1
  {
    var target := if isIndex then ElementArrayBuffer else ArrayBuffer;
    (Device(d.buffers + [Buffer(target, data)]), |d.buffers|)
  }
}
