/** The container of a signed over-the-air package: a ZIP archive whose comment
    ends in a detached signature and a six-byte footer. */
module OtaContainer {
  import opened Common

  type Bytes = seq<Byte>

  type U16 = n: nat | n < 0x1_0000

  datatype Container = Container(content: Bytes, padding: Bytes, signature: Bytes)

  datatype Reason = UnknownCertificate | TooShort | BadFooter | EocdTooLong | BadMarker | LengthsDisagree | BadSignature

  /** End of central directory, section 4.3.16 of the ZIP APPNOTE. */
  const EOCD: Bytes := [0x50, 0x4B, 0x05, 0x06]

  /** Two bytes, the low one first. */
  function Le16(n: U16): (bytes: Bytes)
    ensures |bytes| == 2
  {
    [(n % 256) as Byte, (n / 256) as Byte]
  }

  function FromLe16(bytes: Bytes): (n: U16)
    requires |bytes| == 2
  {
    bytes[0] as nat + 256 * bytes[1] as nat
  }

  lemma Le16RoundTrip(n: U16, bytes: Bytes)
    requires |bytes| == 2
    ensures FromLe16(Le16(n)) == n && Le16(FromLe16(bytes)) == bytes
  {
    assert n == n % 256 + 256 * (n / 256);
    var m := FromLe16(bytes);
    assert m % 256 == bytes[0] as nat && m / 256 == bytes[1] as nat;
  }

  predicate MarkerAt(bytes: Bytes, i: nat) {
    i + 4 <= |bytes| && bytes[i..i + 4] == EOCD
  }

  predicate HasMarker(bytes: Bytes) {
    exists i :: 0 <= i < |bytes| && MarkerAt(bytes, i)
  }

  /** The last `n` bytes. */
  function Last(bytes: Bytes, n: nat): (tail: Bytes)
    requires n <= |bytes|
    ensures |tail| == n
  {
    bytes[|bytes| - n..]
  }

  /** The bounds check over the end of the archive, outermost sizes first. */
  function Parse(archive: Bytes): Result<Container, Reason> {
    if |archive| < 28 then Err(TooShort)
    else
      var footer := Last(archive, 6);
      var start, comment := FromLe16(footer[..2]), FromLe16(footer[4..6]);
      if FromLe16(footer[2..4]) != 0xFFFF || !(6 < start <= comment) then Err(BadFooter)
      else if |archive| < comment + 22 then Err(EocdTooLong)
      else
        var eocd := Last(archive, comment + 22);
        if !MarkerAt(eocd, 0) || HasMarker(eocd[4..]) then Err(BadMarker)
        else if FromLe16(eocd[20..22]) != comment then Err(LengthsDisagree)
        else
          Ok(Container(
            archive[..|archive| - comment - 2],
            eocd[22..|eocd| - start],
            eocd[|eocd| - start..|eocd| - 6]))
  }

  // ------------------------------------------------- what a container looks like

  function Comment(c: Container): Bytes
    requires Fits(c)
  {
    var size := |c.padding| + |c.signature| + 6;
    c.padding + c.signature + Le16(|c.signature| + 6) + [0xFF, 0xFF] + Le16(size)
  }

  predicate Fits(c: Container) {
    |c.padding| + |c.signature| + 6 < 0x1_0000
  }

  /** Signed content, the length of the comment, the comment. */
  function Build(c: Container): (archive: Bytes)
    requires Fits(c)
    ensures |archive| == |c.content| + |c.padding| + |c.signature| + 8
  {
    c.content + Le16(|c.padding| + |c.signature| + 6) + Comment(c)
  }

  /** A signature, and one end-of-central-directory record: the last 20 bytes that are
      signed start it, and nothing after its first four bytes looks like another. */
  predicate WellFormed(c: Container) {
    && Fits(c) && c.signature != [] && |c.content| >= 20
    && MarkerAt(Last(c.content, 20), 0)
    && !HasMarker(Last(Build(c), |c.padding| + |c.signature| + 28)[4..])
  }

  /** Where the parts of a built archive are. */
  lemma BuiltParts(c: Container)
    requires Fits(c) && |c.content| >= 20
    ensures var a := Build(c); var size := |c.padding| + |c.signature| + 6; var eocd := Last(a, size + 22);
      && Last(a, 6) == Le16(|c.signature| + 6) + [0xFF, 0xFF] + Le16(size)
      && eocd == Last(c.content, 20) + Le16(size) + Comment(c)
      && a[..|a| - size - 2] == c.content
  {
    var a := Build(c);
    var size := |c.padding| + |c.signature| + 6;
    var head := c.content + Le16(size) + c.padding + c.signature;
    assert a == head + (Le16(|c.signature| + 6) + [0xFF, 0xFF] + Le16(size));
    assert a == c.content[..|c.content| - 20] + (Last(c.content, 20) + Le16(size) + Comment(c));
  }

  lemma FooterParts(start: U16, size: U16)
    ensures var f := Le16(start) + [0xFF, 0xFF] + Le16(size);
      FromLe16(f[..2]) == start && FromLe16(f[2..4]) == 0xFFFF && FromLe16(f[4..6]) == size
  {
    var f := Le16(start) + [0xFF, 0xFF] + Le16(size);
    assert f[..2] == Le16(start) && f[2..4] == [0xFF, 0xFF] && f[4..6] == Le16(size);
    Le16RoundTrip(start, f[..2]);
    Le16RoundTrip(size, f[4..6]);
  }

  lemma EocdParts(c: Container)
    requires Fits(c) && |c.content| >= 20
    ensures var size := |c.padding| + |c.signature| + 6; var start := |c.signature| + 6;
      var eocd := Last(c.content, 20) + Le16(size) + Comment(c);
      && |eocd| == size + 22
      && eocd[..4] == Last(c.content, 20)[..4]
      && FromLe16(eocd[20..22]) == size
      && eocd[22..|eocd| - start] == c.padding
      && eocd[|eocd| - start..|eocd| - 6] == c.signature
  {
    var size := |c.padding| + |c.signature| + 6;
    var eocd := Last(c.content, 20) + Le16(size) + Comment(c);
    assert eocd[20..22] == Le16(size);
    Le16RoundTrip(size, eocd[20..22]);
  }

  /** A container parses back to its parts exactly when it is well formed. */
  lemma BuiltParses(c: Container)
    requires Fits(c) && |c.content| >= 20
    ensures Parse(Build(c)) == Ok(c) <==> WellFormed(c)
  {
    var a := Build(c);
    var size := |c.padding| + |c.signature| + 6;
    BuiltParts(c);
    FooterParts(|c.signature| + 6, size);
    EocdParts(c);
    assert MarkerAt(Last(a, size + 22), 0) <==> MarkerAt(Last(c.content, 20), 0) by {
      assert Last(a, size + 22)[0..4] == Last(a, size + 22)[..4];
      assert Last(c.content, 20)[0..4] == Last(c.content, 20)[..4];
    }
  }

  /** A footer that passes is rebuilt from the numbers read from it. */
  lemma FooterRebuilt(footer: Bytes)
    requires |footer| == 6 && FromLe16(footer[2..4]) == 0xFFFF
    ensures footer == Le16(FromLe16(footer[..2])) + [0xFF, 0xFF] + Le16(FromLe16(footer[4..6]))
  {
    Le16RoundTrip(0, footer[..2]);
    Le16RoundTrip(0, footer[2..4]);
    Le16RoundTrip(0, footer[4..6]);
    assert footer[2..4] == [0xFF, 0xFF];
    assert footer == footer[..2] + footer[2..4] + footer[4..6];
  }

  lemma TailParts(archive: Bytes, size: nat, start: nat)
    requires 6 < start <= size && size + 22 <= |archive|
    ensures var eocd := Last(archive, size + 22);
      && archive == archive[..|archive| - size - 2] + eocd[20..22] + eocd[22..]
      && eocd[22..] == eocd[22..|eocd| - start] + eocd[|eocd| - start..|eocd| - 6] + Last(archive, 6)
  {
    var eocd := Last(archive, size + 22);
    assert eocd[|eocd| - 6..] == Last(archive, 6);
    assert eocd[20..] == archive[|archive| - size - 2..];
    assert eocd[20..] == eocd[20..22] + eocd[22..];
  }

  /** An accepted archive is its signed content, the two-byte length of the comment
      and the comment, whose end is a signature that is there and the footer. */
  lemma ParsedIsBuilt(archive: Bytes)
    requires Parse(archive).Ok?
    ensures var c := Parse(archive).value; Fits(c) && |c.content| >= 20 && archive == Build(c)
  {
    var c := Parse(archive).value;
    var footer := Last(archive, 6);
    var start: nat, size: nat := FromLe16(footer[..2]), FromLe16(footer[4..6]);
    Rebuilt(archive, c, start, size);
  }

  lemma Rebuilt(archive: Bytes, c: Container, start: nat, size: nat)
    requires 6 < start <= size && size + 22 <= |archive|
    requires var footer := Last(archive, 6);
      start == FromLe16(footer[..2]) && size == FromLe16(footer[4..6]) && FromLe16(footer[2..4]) == 0xFFFF
    requires var eocd := Last(archive, size + 22);
      && FromLe16(eocd[20..22]) == size
      && c == Container(archive[..|archive| - size - 2], eocd[22..|eocd| - start], eocd[|eocd| - start..|eocd| - 6])
    ensures Fits(c) && |c.content| >= 20 && archive == Build(c)
  {
    TailParts(archive, size, start);
    FooterRebuilt(Last(archive, 6));
    Le16RoundTrip(0, Last(archive, size + 22)[20..22]);
  }

  /** Parsing accepts exactly the well-formed containers, each as its own parts. */
  lemma ParseMeans(archive: Bytes, c: Container)
    ensures Parse(archive) == Ok(c) <==> WellFormed(c) && archive == Build(c)
  {
    if Parse(archive) == Ok(c) {
      ParsedIsBuilt(archive);
      BuiltParses(c);
    } else if WellFormed(c) && archive == Build(c) {
      BuiltParses(c);
    }
  }

  /** The end-of-central-directory marker occurs once in the tail, though offsets one
      to three are never looked at. */
  lemma MarkerOccursOnce(archive: Bytes, i: nat)
    requires Parse(archive).Ok?
    requires var c := Parse(archive).value; i < |c.padding| + |c.signature| + 28
    ensures var c := Parse(archive).value;
      |c.padding| + |c.signature| + 28 <= |archive|
      && (MarkerAt(Last(archive, |c.padding| + |c.signature| + 28), i) <==> i == 0)
  {
    ParsedIsBuilt(archive);
    var c := Parse(archive).value;
    var eocd := Last(archive, |c.padding| + |c.signature| + 28);
    assert eocd[0..4] == EOCD;
    if i >= 4 {
      if i + 4 <= |eocd| { assert eocd[4..][i - 4..i] == eocd[i..i + 4]; }
      assert MarkerAt(eocd[4..], i - 4) == MarkerAt(eocd, i);
    } else if i > 0 {
      assert eocd[i] == eocd[0..4][i] == EOCD[i] != EOCD[0];
      assert eocd[i..i + 4][0] == eocd[i];
    }
  }
}

/** The check over a file that is read a chunk at a time. */
module OtaVerifier {
  import opened Common
  import opened OtaContainer

  const CHUNK: nat := 1024 * 1024

  class File {
    const data: Bytes
    var position: nat

    constructor (data: Bytes)
      ensures this.data == data && position == 0
    {
      this.data, position := data, 0;
    }

    method Seek(at: nat)
      modifies this`position
      ensures position == at
    {
      position := at;
    }

    /** At most `n` bytes, fewer only at the end. */
    method Read(n: nat) returns (chunk: Bytes)
      requires position <= |data|
      modifies this`position
      ensures position == old(position) + |chunk| <= |data|
      ensures chunk == data[old(position)..position]
      ensures |chunk| == if n <= |data| - old(position) then n else |data| - old(position)
    {
      var end := if n <= |data| - position then position + n else |data|;
      chunk := data[position..end];
      position := end;
    }
  }

  /** What a successful check hands on: the two files for the signature check, and
      everything that went into the archive's hash. */
  datatype Report = Report(signed: Bytes, signature: Bytes, hashed: Bytes)

  /** Copies the signed part, hashing every chunk, then hashes what is left. */
  method Copy(file: File, signed: nat) returns (written: Bytes, hashed: Bytes)
    requires signed <= |file.data|
    modifies file
    ensures written == file.data[..signed] && hashed == file.data
  {
    file.Seek(0);
    var remaining := signed;
    written, hashed := [], [];
    while remaining > 0
      invariant file.position == signed - remaining <= signed
      invariant written == hashed == file.data[..file.position]
      decreases remaining
    {
      var chunk := file.Read(if CHUNK <= remaining then CHUNK else remaining);
      // the length was measured before, so "Truncated archive" cannot be raised
      assert chunk != [];
      written := written + chunk;
      hashed := hashed + chunk;
      remaining := remaining - |chunk|;
    }
    var rest := file.Read(|file.data|);
    hashed := hashed + rest;
  }

  /** `verify`: accepted exactly when the certificate is the pinned one, the container
      parses and the signature check holds of its content; then the content file is
      the signed prefix and the hash covers every byte of the archive. */
  method Verify(file: File, pinned: bool, cms: (Bytes, Bytes) -> bool) returns (result: Result<Report, Reason>)
    modifies file
    ensures result.Ok? <==>
      (pinned && Parse(file.data).Ok? && cms(Parse(file.data).value.content, Parse(file.data).value.signature))
    ensures result.Ok? ==> var c := Parse(file.data).value;
      result.value == Report(c.content, c.signature, file.data)
    ensures pinned && Parse(file.data).Err? ==> result == Err(Parse(file.data).error)
  {
    if !pinned { return Err(UnknownCertificate); }
    var length := |file.data|;
    if length < 28 { return Err(TooShort); }
    file.Seek(length - 6);
    var footer := file.Read(6);
    assert footer == Last(file.data, 6);
    var start: nat, marker: nat, comment: nat := FromLe16(footer[..2]), FromLe16(footer[2..4]), FromLe16(footer[4..6]);
    if marker != 0xFFFF || !(6 < start <= comment) { return Err(BadFooter); }
    var size := comment + 22;
    if length < size { return Err(EocdTooLong); }
    file.Seek(length - size);
    var eocd := file.Read(size);
    assert eocd == Last(file.data, size);
    if !MarkerAt(eocd, 0) || HasMarker(eocd[4..]) { return Err(BadMarker); }
    if FromLe16(eocd[20..22]) != comment { return Err(LengthsDisagree); }
    var signature := eocd[|eocd| - start..|eocd| - 6];
    var written, hashed := Copy(file, length - comment - 2);
    if !cms(written, signature) { return Err(BadSignature); }
    return Ok(Report(written, signature, hashed));
  }
}
