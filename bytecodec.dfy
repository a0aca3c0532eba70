/**
 * Bytes and the byte-per-character conversions the session engine falls back on when no
 * TextDecoder/TextEncoder is available (utils/batteryManager.js).
 */
module ByteCodec {
  /** An element of a Uint8Array. */
  type Byte = b: int | 0 <= b < 256

  /** `_uint8ArrayToStringFallback`: each byte becomes the character with that code. */
  function DecodeBytes(data: seq<Byte>): (s: string)
    ensures |s| == |data|
    ensures forall i :: 0 <= i < |data| ==> s[i] as int == data[i]
  {
    seq(|data|, i requires 0 <= i < |data| => data[i] as char)
  }

  /**
   * `_stringToUint8ArrayFallback`: each character's code goes into a Uint8Array, which keeps
   * its low eight bits.
   */
  function EncodeString(s: string): (data: seq<Byte>)
    ensures |data| == |s|
    ensures forall i :: 0 <= i < |s| ==> data[i] == s[i] as int % 256
  {
    seq(|s|, i requires 0 <= i < |s| => s[i] as int % 256)
  }

  /** Characters that survive the trip through a Uint8Array unchanged. */
  predicate IsLatin1(s: string) {
    forall i :: 0 <= i < |s| ==> s[i] as int < 256
  }

  /** Encoding the decoded text gives the bytes back. */
  lemma EncodeDecode(data: seq<Byte>)
    ensures EncodeString(DecodeBytes(data)) == data
  {
  }

  /** Decoding the encoded text gives the text back exactly when every code is below 256. */
  lemma DecodeEncode(s: string)
    ensures DecodeBytes(EncodeString(s)) == s <==> IsLatin1(s)
  {
    if DecodeBytes(EncodeString(s)) == s {
      forall i | 0 <= i < |s| ensures s[i] as int < 256 {
        assert DecodeBytes(EncodeString(s))[i] == s[i];
      }
    }
  }
}
