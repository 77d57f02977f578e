// EXRDriverIdentify: whether GDAL's OpenEXR driver claims a file, decided
// from the name it is opened under and the first bytes of the file.
module ExrDriver {

  newtype byte = x: int | 0 <= x < 256

  /** What the driver sees of a file being opened (GDALOpenInfo): its name,
    * whether a file handle could be obtained, and the bytes read from its
    * start (pabyHeader, of length nHeaderBytes). */
  datatype OpenInfo = OpenInfo(filename: string, fileOpen: bool, header: seq<byte>)

  /** The OpenEXR magic number 20000630, stored as four little-endian bytes at
    * the start of every OpenEXR file (OpenEXR File Layout, "Magic Number"). */
  const Magic: seq<byte> := [0x76, 0x2f, 0x31, 0x01]

  lemma MagicIsLittleEndian20000630()
    ensures Magic[0] as int + 256 * (Magic[1] as int + 256 * (Magic[2] as int + 256 * Magic[3] as int)) == 20000630
  {
  }

  /** ASCII case folding as strncasecmp does it in the C locale. */
  function Lower(c: char): char
  {
    if 'A' <= c <= 'Z' then (c as int - 'A' as int + 'a' as int) as char else c
  }

  /** STARTS_WITH_CI(filename, "EXR:"). */
  predicate HasExrPrefix(filename: string)
  {
    |filename| >= 4
    && Lower(filename[0]) == 'e' && Lower(filename[1]) == 'x'
    && Lower(filename[2]) == 'r' && filename[3] == ':'
  }

  /** The prefix spelt out: "EXR:" in any mix of cases. */
  lemma ExrPrefixCaseVariants(filename: string)
    ensures HasExrPrefix(filename) <==>
      |filename| >= 4 && filename[..4] in
        {"EXR:", "EXr:", "ExR:", "Exr:", "eXR:", "eXr:", "exR:", "exr:"}
  {
    if |filename| >= 4 {
      var p := filename[..4];
      assert p == [filename[0], filename[1], filename[2], filename[3]];
    }
  }

  /** EXRDriverIdentify: the "EXR:" prefix in any case, or an open file
    * whose first four bytes are the magic number. */
  function Identify(info: OpenInfo): (claimed: bool)
    ensures claimed <==>
      HasExrPrefix(info.filename) || (info.fileOpen && |info.header| >= 4 && info.header[..4] == Magic)
  {
    if HasExrPrefix(info.filename) then true
    else
      info.fileOpen && |info.header| >= 4
      && info.header[0] == 0x76 && info.header[1] == 0x2f
      && info.header[2] == 0x31 && info.header[3] == 0x01
  }

  /** Fewer than four header bytes are never enough. */
  lemma ShortHeaderRejected(info: OpenInfo)
    requires !HasExrPrefix(info.filename) && |info.header| < 4
    ensures !Identify(info)
  {
  }

  /** Without a file handle the header is not looked at, even when it holds
    * the magic number. */
  lemma NoHandleRejected(info: OpenInfo)
    requires !HasExrPrefix(info.filename) && !info.fileOpen
    ensures !Identify(info)
  {
  }

  /** Once four bytes have been read, reading more never changes the answer. */
  lemma IdentifyIgnoresTrailingBytes(info: OpenInfo, more: seq<byte>)
    requires |info.header| >= 4
    ensures Identify(info.(header := info.header + more)) == Identify(info)
  {
    var h := info.header + more;
    assert h[0] == info.header[0] && h[1] == info.header[1];
    assert h[2] == info.header[2] && h[3] == info.header[3];
  }
}
