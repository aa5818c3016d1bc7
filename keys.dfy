/**
 * The encoding helpers of the device-key module: an `ArrayBuffer` is turned into a
 * base64 string through a binary string built one character per byte, and back
 * through `atob` and a `Uint8Array` filled index by index.
 */
module Keys {
  import opened Wrappers
  import opened Base64

  /**
   * `arrayBufferToBase64`: appends `String.fromCharCode(bytes[i])` for every byte
   * and hands the binary string to `btoa`.  The binary string always satisfies
   * `btoa`'s precondition, so the result is the padded encoding of the bytes.
   */
  method ArrayBufferToBase64(buf: array<byte>) returns (r: string)
    ensures r == Encode(buf[..])
  {
    var binary: string := "";
    for i := 0 to buf.Length
      invariant |binary| == i
      invariant forall j :: 0 <= j < i ==> binary[j] as int == buf[j]
    {
      binary := binary + [buf[i] as char];
    }
    assert binary == BinaryString(buf[..]);
    Latin1OfBinary(buf[..]);
    var encoded := Btoa(binary);
    r := encoded.value;
  }

  /** `ToUint8`: the conversion a store into a `Uint8Array` applies to a number. */
  function ToUint8(n: int): (b: byte)
    ensures 0 <= n < 256 ==> b == n
    ensures (b - n) % 256 == 0
  {
    n % 256
  }

  /**
   * `base64ToArrayBuffer`: decodes with `atob` (which throws on malformed input,
   * here `None`), allocates `binary.length` bytes and stores `binary.charCodeAt(i)`
   * at index `i`.
   */
  method Base64ToArrayBuffer(b64: string) returns (r: Option<array<byte>>)
    ensures r.Some? <==> Atob(b64).Some?
    ensures r.Some? ==> r.value.Length == |Atob(b64).value|
    ensures r.Some? ==> r.value[..] == Latin1Bytes(Atob(b64).value)
  {
    var decoded := Atob(b64);
    if decoded.None? {
      return None;
    }
    var binary := decoded.value;
    ghost var expected := Latin1Bytes(binary);
    var bytes := new byte[|binary|];
    for i := 0 to |binary|
      invariant forall j :: 0 <= j < i ==> bytes[j] == expected[j]
    {
      bytes[i] := ToUint8(binary[i] as int);
    }
    assert bytes[..] == expected;
    return Some(bytes);
  }

  /** On bytes, decoding inverts encoding: the specification of the round trip below. */
  lemma DecodeOfEncodeIsIdentity(b: seq<byte>)
    ensures Atob(Encode(b)).Some?
    ensures Latin1Bytes(Atob(Encode(b)).value) == b
  {
    AtobOfEncode(b);
    Latin1OfBinary(b);
  }

  /** `base64ToArrayBuffer(arrayBufferToBase64(buf))` gives back a buffer holding the same bytes. */
  method EncodeDecodeBuffer(buf: array<byte>) returns (back: Option<array<byte>>)
    ensures back.Some? && back.value[..] == buf[..]
  {
    var s := ArrayBufferToBase64(buf);
    DecodeOfEncodeIsIdentity(buf[..]);
    back := Base64ToArrayBuffer(s);
  }
}
