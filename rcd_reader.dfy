/**
 * The RCD resource-file reader: a cursor over a finite byte file that
 * decodes little-endian integers, nul-terminated text and raw blobs, and
 * reads the 12-byte headers of the file's tagged, versioned blocks.
 *
 * The open file is modelled by its contents, `data`; the file size is
 * `|data|`. The C stream position of the underlying file handle is always
 * `Min(filePos, |data|)`: reads past the end leave the handle at the end of
 * the file while `filePos` keeps counting, and `SkipBytes` clamps and seeks.
 */
module RcdReader {
  import opened LoadErrors

  function Min(a: nat, b: nat): nat { if a <= b then a else b }

  function Pow256(n: nat): (r: nat)
    ensures r >= 1
  {
    if n == 0 then 1 else 256 * Pow256(n - 1)
  }

  /** The unsigned value of a little-endian byte sequence (first byte least significant). */
  function LittleEndian(bytes: seq<bv8>): (r: nat)
    ensures r < Pow256(|bytes|)
  {
    if bytes == [] then 0 else bytes[0] as nat + 256 * LittleEndian(bytes[1..])
  }

  /** The two's-complement reading of an unsigned value of a given modulus (256, 65536, 2^32). */
  function TwosComplement(v: nat, modulus: nat): (r: int)
    requires modulus >= 2 && modulus % 2 == 0 && v < modulus
    ensures -(modulus / 2) <= r < modulus / 2
    ensures (v - r) % modulus == 0
  {
    if v < modulus / 2 then v else v - modulus
  }

  /** The C string held in a byte buffer: the bytes before its first nul. */
  function CString(bytes: seq<bv8>): (s: seq<bv8>)
    ensures |s| <= |bytes| && s == bytes[..|s|]
    ensures 0 !in s
    ensures |s| < |bytes| ==> bytes[|s|] == 0
  {
    if bytes == [] || bytes[0] == 0 then [] else [bytes[0]] + CString(bytes[1..])
  }

  /** Whether some byte at or after `from` is a nul (a text read starting there ends in the file). */
  predicate HasNulFrom(data: seq<bv8>, from: nat)
  {
    exists k :: from <= k < |data| && data[k] == 0
  }

  /** Both bit patterns of `GetUInt16` (`lo | hi << 8`) add up without overlap. */
  lemma Or16(lo: bv8, hi: bv8)
    ensures ((lo as bv16) | ((hi as bv16) << 8)) as nat == lo as nat + 256 * hi as nat
  {
  }

  /** Both halves of `GetUInt32` (`lo | hi << 16`) add up without overlap. */
  lemma Or32(lo: bv16, hi: bv16)
    ensures ((lo as bv32) | ((hi as bv32) << 16)) as nat == lo as nat + 65536 * hi as nat
  {
  }

  class RcdFileReader {
    /** Whether the file could be opened (the source's `fp != nullptr`). */
    const isOpen: bool
    /** The contents of the file; `|data|` is the source's `file_size`. */
    const data: seq<bv8>
    /** Offset of the next byte to read (may exceed `|data|` after reading past the end). */
    var filePos: nat
    /** Header fields of the block read last by `ReadBlockHeader`. */
    var name: seq<bv8>
    var version: nat
    var size: nat

    /** Opening the file; a file that cannot be opened has size 0. */
    constructor (openSucceeded: bool, contents: seq<bv8>)
      ensures isOpen == openSucceeded && data == (if openSucceeded then contents else [])
      ensures filePos == 0 && name == [] && version == 0 && size == 0
    {
      isOpen := openSucceeded;
      data := if openSucceeded then contents else [];
      filePos := 0;
      name := [];
      version := 0;
      size := 0;
    }

    /** Length of the data not yet read; zero once the position has passed the end. */
    function GetRemaining(): (r: nat)
      reads this
      ensures r <= |data|
      ensures filePos <= |data| ==> filePos + r == |data|
      ensures filePos >= |data| ==> r == 0
    {
      if |data| >= filePos then |data| - filePos else 0
    }

    method GetUInt8() returns (v: bv8)
      requires filePos < |data|
      modifies this`filePos
      ensures filePos == old(filePos) + 1
      ensures v == data[old(filePos)]
    {
      v := data[filePos];
      filePos := filePos + 1;
    }

    method GetInt8() returns (v: int)
      requires filePos < |data|
      modifies this`filePos
      ensures filePos == old(filePos) + 1
      ensures -128 <= v < 128
      ensures (data[old(filePos)] as nat - v) % 256 == 0
    {
      var u := GetUInt8();
      v := TwosComplement(u as nat, 256);
    }

    method GetUInt16() returns (v: bv16)
      requires filePos + 2 <= |data|
      modifies this`filePos
      ensures filePos == old(filePos) + 2
      ensures v as nat == data[old(filePos)] as nat + 256 * data[old(filePos) + 1] as nat
      ensures v as nat == LittleEndian(data[old(filePos)..filePos])
    {
      ghost var p := filePos;
      var lo := GetUInt8();
      var hi := GetUInt8();
      Or16(lo, hi);
      v := (lo as bv16) | ((hi as bv16) << 8);
      assert data[p..filePos][1..] == [data[p + 1]];
    }

    method GetInt16() returns (v: int)
      requires filePos + 2 <= |data|
      modifies this`filePos
      ensures filePos == old(filePos) + 2
      ensures -32768 <= v < 32768
      ensures (LittleEndian(data[old(filePos)..filePos]) - v) % 65536 == 0
    {
      var u := GetUInt16();
      v := TwosComplement(u as nat, 65536);
    }

    method GetUInt32() returns (v: bv32)
      requires filePos + 4 <= |data|
      modifies this`filePos
      ensures filePos == old(filePos) + 4
      ensures v as nat == data[old(filePos)] as nat + 256 * data[old(filePos) + 1] as nat
                          + 65536 * data[old(filePos) + 2] as nat + 16777216 * data[old(filePos) + 3] as nat
      ensures v as nat == LittleEndian(data[old(filePos)..filePos])
    {
      ghost var p := filePos;
      var lo := GetUInt16();
      var hi := GetUInt16();
      Or32(lo, hi);
      v := (lo as bv32) | ((hi as bv32) << 16);
      LittleEndianSplit(data[p..p + 4]);
      assert data[p..p + 4][..2] == data[p..p + 2] && data[p..p + 4][2..] == data[p + 2..p + 4];
    }

    method GetInt32() returns (v: int)
      requires filePos + 4 <= |data|
      modifies this`filePos
      ensures filePos == old(filePos) + 4
      ensures -0x8000_0000 <= v < 0x8000_0000
      ensures (LittleEndian(data[old(filePos)..filePos]) - v) % 0x1_0000_0000 == 0
    {
      var u := GetUInt32();
      v := TwosComplement(u as nat, 0x1_0000_0000);
    }

    /**
     * Reads a nul-terminated text. The source has no end-of-file guard here
     * (past the end it would loop for ever), so a nul must follow in the file.
     */
    method GetText() returns (text: seq<bv8>)
      requires HasNulFrom(data, filePos)
      modifies this`filePos
      ensures 0 !in text
      ensures old(filePos) + |text| < |data| && data[old(filePos) + |text|] == 0
      ensures text == data[old(filePos)..old(filePos) + |text|]
      ensures filePos == old(filePos) + |text| + 1
      ensures text == CString(data[old(filePos)..])
    {
      ghost var p := filePos;
      ghost var k :| p <= k < |data| && data[k] == 0;
      text := [];
      while true
        invariant p <= filePos <= k
        invariant text == data[p..filePos]
        invariant 0 !in text
        decreases k - filePos
      {
        var c := GetUInt8();
        if c == 0 {
          break;
        }
        text := text + [c];
      }
      CStringOfPrefix(data[p..], text);
    }

    /**
     * Reads `length` bytes. The stream position is `Min(filePos, |data|)`;
     * `fread` delivers what is left of the requested bytes and reports success
     * only when all of them were read (never for a length of zero).
     */
    method GetBlob(length: nat) returns (ok: bool, bytes: seq<bv8>)
      modifies this`filePos
      ensures filePos == old(filePos) + length
      ensures ok <==> length > 0 && old(filePos) + length <= |data|
      ensures ok ==> bytes == data[old(filePos)..filePos]
      ensures bytes == data[Min(old(filePos), |data|)..Min(old(filePos) + length, |data|)]
    {
      var start := Min(filePos, |data|);
      var end := Min(filePos + length, |data|);
      bytes := data[start..end];
      ok := length > 0 && end - start == length;
      filePos := filePos + length;
    }

    /**
     * Checks the file header: a 4-byte name and a 32-bit version. On a name
     * mismatch only the name has been consumed.
     */
    method CheckFileHeader(hdrName: seq<bv8>, hdrVersion: nat) returns (ok: bool)
      modifies this`filePos
      ensures ok <==> isOpen && old(GetRemaining()) >= 8
                      && CString(data[old(filePos)..old(filePos) + 4]) == hdrName
                      && LittleEndian(data[old(filePos) + 4..old(filePos) + 8]) == hdrVersion
      ensures filePos == if !isOpen || old(GetRemaining()) < 8 then old(filePos)
                         else if CString(data[old(filePos)..old(filePos) + 4]) != hdrName then old(filePos) + 4
                         else old(filePos) + 8
    {
      if !isOpen {
        return false;
      }
      if GetRemaining() < 8 {
        return false;
      }
      var _, raw := GetBlob(4);
      if CString(raw) != hdrName {
        return false;
      }
      var val := GetUInt32();
      ok := val as nat == hdrVersion;
    }

    /**
     * Reads the 12-byte header of the block starting at the current position.
     * Returns whether a block was found that fits in the rest of the file.
     */
    method ReadBlockHeader() returns (ok: bool)
      modifies this`filePos, this`name, this`version, this`size
      ensures old(GetRemaining()) < 12 ==>
                !ok && filePos == old(filePos) && name == old(name)
                && version == old(version) && size == old(size)
      ensures old(GetRemaining()) >= 12 ==>
                filePos == old(filePos) + 12
                && name == data[old(filePos)..old(filePos) + 4]
                && version == LittleEndian(data[old(filePos) + 4..old(filePos) + 8])
                && size == LittleEndian(data[old(filePos) + 8..old(filePos) + 12])
                && (ok <==> filePos + size <= |data|)
    {
      if GetRemaining() < 12 {
        return false;
      }
      var _, raw := GetBlob(4);
      name := raw;
      var v := GetUInt32();
      var n := GetUInt32();
      version, size := v as nat, n as nat;
      ok := filePos + size <= |data|;
    }

    /** Skips `count` bytes, never moving past the end of the file. */
    method SkipBytes(count: nat) returns (ok: bool)
      requires count < 0x1_0000_0000
      modifies this`filePos
      ensures filePos == Min(old(filePos) + count, |data|)
      ensures filePos <= |data|
      ensures ok
    {
      filePos := filePos + count;
      if filePos > |data| {
        filePos := |data|;
      }
      ok := true;
    }

    /** Fails when the version of the block read last is not the supported one. */
    method CheckVersion(currentVersion: nat) returns (o: Outcome)
      ensures o.Pass? <==> version == currentVersion
      ensures o.Fail? ==> o.error == VersionMismatch(version, currentVersion)
    {
      if version != currentVersion {
        return Fail(VersionMismatch(version, currentVersion));
      }
      return Pass;
    }
  }

  /** Fails when fewer than `required` bytes are left in a block. */
  function CheckMinLength(length: int, required: int, what: string): (o: Outcome)
    ensures o.Pass? <==> length >= required
    ensures o.Fail? ==> o.error.LengthTooShort? && o.error.what == what
                        && o.error.missing > 0 && length + o.error.missing == required
  {
    if length < required then Fail(LengthTooShort(what, required - length)) else Pass
  }

  /** Fails when not exactly `required` bytes are left, naming the shortfall or the excess. */
  function CheckExactLength(length: int, required: int, what: string): (o: Outcome)
    ensures o.Pass? <==> length == required
    ensures length < required ==> o == Fail(LengthMissing(what, required - length))
    ensures length > required ==> o == Fail(LengthTrailing(what, length - required))
  {
    if length < required then Fail(LengthMissing(what, required - length))
    else if length > required then Fail(LengthTrailing(what, length - required))
    else Pass
  }

  /** A 4-byte value splits into its low and high 16-bit halves. */
  lemma {:induction false} LittleEndianSplit(bytes: seq<bv8>)
    requires |bytes| == 4
    ensures LittleEndian(bytes) == LittleEndian(bytes[..2]) + 65536 * LittleEndian(bytes[2..])
    ensures LittleEndian(bytes) == bytes[0] as nat + 256 * bytes[1] as nat
                                   + 65536 * bytes[2] as nat + 16777216 * bytes[3] as nat
  {
    assert bytes[1..][1..] == bytes[2..];
    assert bytes[2..][1..] == bytes[3..];
    assert bytes[3..][1..] == [];
    assert bytes[..2][1..] == [bytes[1]];
    assert [bytes[1]][1..] == [];
  }

  /** A nul-free prefix followed by a nul is the C string of the buffer. */
  lemma {:induction false} CStringOfPrefix(bytes: seq<bv8>, text: seq<bv8>)
    requires |text| < |bytes| && text == bytes[..|text|] && 0 !in text && bytes[|text|] == 0
    ensures CString(bytes) == text
  {
    if text != [] {
      assert bytes[1..][..|text| - 1] == text[1..];
      CStringOfPrefix(bytes[1..], text[1..]);
    }
  }
}
