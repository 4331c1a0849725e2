/**
 * The central directory of a ZIP file (section 4.3.12 of the ZIP APPNOTE): counting its headers by
 * walking the bytes, and the headers as values that are written to and read from bytes.
 */
module ZipDirectory {
  import opened Results

  newtype Byte = x: int | 0 <= x < 256

  datatype ArchiveError = Archive

  const Signature: seq<Byte> := [0x50, 0x4b, 0x01, 0x02]
  const FixedLength: nat := 46

  /** A header: `before` are the 24 bytes between the signature and the lengths, `after` the 12 behind them. */
  datatype Header = Header(before: seq<Byte>, after: seq<Byte>, name: seq<Byte>, extra: seq<Byte>, comment: seq<Byte>)

  predicate WellFormed(h: Header) {
    |h.before| == 24 && |h.after| == 12 && |h.name| < 0x10000 && |h.extra| < 0x10000 && |h.comment| < 0x10000
  }

  function U16(low: Byte, high: Byte): nat {
    low as int + 256 * high as int
  }

  function Le16(n: nat): seq<Byte>
    requires n < 0x10000
  {
    [(n % 256) as Byte, (n / 256) as Byte]
  }

  // ----- Bytes as headers --------------------------------------------------------------------

  predicate SignatureAt(bytes: seq<Byte>, at: nat)
    requires at + 4 <= |bytes|
  {
    bytes[at..at + 4] == Signature
  }

  function VariableLength(bytes: seq<Byte>, at: nat): nat
    requires at + FixedLength <= |bytes|
  {
    U16(bytes[at + 28], bytes[at + 29]) + U16(bytes[at + 30], bytes[at + 31]) + U16(bytes[at + 32], bytes[at + 33])
  }

  predicate HeaderAt(bytes: seq<Byte>, at: nat) {
    && at + FixedLength <= |bytes|
    && SignatureAt(bytes, at)
    && at + FixedLength + VariableLength(bytes, at) <= |bytes|
  }

  /** From `at` on the bytes are `n` headers and then at least four bytes that begin no header. */
  predicate Directory(bytes: seq<Byte>, at: nat, n: nat)
    decreases n
  {
    if n == 0 then at + 4 <= |bytes| && !SignatureAt(bytes, at)
    else HeaderAt(bytes, at) && Directory(bytes, at + FixedLength + VariableLength(bytes, at), n - 1)
  }

  lemma {:induction false} DirectoryUnique(bytes: seq<Byte>, at: nat, m: nat, n: nat)
    requires Directory(bytes, at, m) && Directory(bytes, at, n)
    ensures m == n
    decreases m
  {
    if m > 0 && n > 0 {
      DirectoryUnique(bytes, at + FixedLength + VariableLength(bytes, at), m - 1, n - 1);
    }
  }

  lemma WalkOn(bytes: seq<Byte>, start: nat, k: nat, at: nat)
    requires at + FixedLength <= |bytes| && SignatureAt(bytes, at)
    requires forall n: nat :: Directory(bytes, start, n) <==> n >= k && Directory(bytes, at, n - k)
    ensures var next := at + FixedLength + VariableLength(bytes, at);
      forall n: nat :: Directory(bytes, start, n) <==> n >= k + 1 && Directory(bytes, next, n - k - 1)
  {
  }

  /**
   * Counts the headers from `start`, jumping over the variable part of each; the jump may pass the
   * end of the file, and then the next read fails.
   */
  method CentralDirectoryEntryCount(bytes: seq<Byte>, start: nat) returns (result: Result<nat, ArchiveError>)
    ensures forall n: nat :: result == Ok(n) <==> Directory(bytes, start, n)
  {
    var count, at := 0, start;
    while true
      invariant forall n: nat :: Directory(bytes, start, n) <==> n >= count && Directory(bytes, at, n - count)
      decreases if at < |bytes| then |bytes| - at else 0
    {
      if at + 4 > |bytes| {
        return Err(Archive);
      }
      if bytes[at..at + 4] != Signature {
        return Ok(count);
      }
      if at + FixedLength > |bytes| {
        return Err(Archive);
      }
      WalkOn(bytes, start, count, at);
      at := at + FixedLength + VariableLength(bytes, at);
      count := count + 1;
    }
  }

  // ----- Headers as bytes --------------------------------------------------------------------

  function Fixed(h: Header): seq<Byte>
    requires WellFormed(h)
  {
    Signature + h.before + Le16(|h.name|) + Le16(|h.extra|) + Le16(|h.comment|) + h.after
  }

  function Encode(h: Header): seq<Byte>
    requires WellFormed(h)
  {
    Fixed(h) + (h.name + h.extra + h.comment)
  }

  function EncodeAll(hs: seq<Header>): seq<Byte>
    requires forall h :: h in hs ==> WellFormed(h)
    decreases |hs|
  {
    if hs == [] then [] else Encode(hs[0]) + EncodeAll(hs[1..])
  }

  function Decode(bytes: seq<Byte>, at: nat): Header
    requires HeaderAt(bytes, at)
  {
    var name := at + FixedLength;
    var extra := name + U16(bytes[at + 28], bytes[at + 29]);
    var comment := extra + U16(bytes[at + 30], bytes[at + 31]);
    var end := comment + U16(bytes[at + 32], bytes[at + 33]);
    Header(bytes[at + 4..at + 28], bytes[at + 34..at + 46], bytes[name..extra], bytes[extra..comment],
      bytes[comment..end])
  }

  function DecodeAll(bytes: seq<Byte>, at: nat, n: nat): (hs: seq<Header>)
    requires Directory(bytes, at, n)
    ensures |hs| == n
    decreases n
  {
    if n == 0 then []
    else [Decode(bytes, at)] + DecodeAll(bytes, at + FixedLength + VariableLength(bytes, at), n - 1)
  }

  lemma Le16RoundTrip(n: nat)
    requires n < 0x10000
    ensures U16(Le16(n)[0], Le16(n)[1]) == n
  {
  }

  lemma FixedAt(h: Header)
    requires WellFormed(h)
    ensures var f := Fixed(h);
      && |f| == FixedLength && f[..4] == Signature && f[4..28] == h.before && f[34..46] == h.after
      && f[28..30] == Le16(|h.name|) && f[30..32] == Le16(|h.extra|) && f[32..34] == Le16(|h.comment|)
  {
  }

  lemma SliceOfSlice(bytes: seq<Byte>, lo: nat, hi: nat, i: nat, j: nat)
    requires lo <= hi <= |bytes| && i <= j <= hi - lo
    ensures bytes[lo..hi][i..j] == bytes[lo + i..lo + j]
  {
    var a, b := bytes[lo..hi][i..j], bytes[lo + i..lo + j];
    assert |a| == |b| == j - i;
    forall k | 0 <= k < j - i
      ensures a[k] == b[k]
    {
      assert a[k] == bytes[lo..hi][i + k] == bytes[lo + i + k];
    }
  }

  /** The parts of a header, where they stand in its encoding. */
  lemma EncodeParts(h: Header)
    requires WellFormed(h)
    ensures var e := Encode(h); var extra := FixedLength + |h.name|; var comment := extra + |h.extra|;
      && |e| == comment + |h.comment| && e[..FixedLength] == Fixed(h)
      && e[FixedLength..extra] == h.name && e[extra..comment] == h.extra && e[comment..|e|] == h.comment
  {
  }

  /** The parts of a header, where they stand in a file. */
  lemma PartsAreThere(bytes: seq<Byte>, at: nat, h: Header)
    requires WellFormed(h) && at + |Encode(h)| <= |bytes| && bytes[at..at + |Encode(h)|] == Encode(h)
    ensures var name := at + FixedLength; var extra := name + |h.name|; var comment := extra + |h.extra|;
      && |Encode(h)| == FixedLength + |h.name| + |h.extra| + |h.comment|
      && bytes[at..name] == Fixed(h) && bytes[name..extra] == h.name && bytes[extra..comment] == h.extra
      && bytes[comment..comment + |h.comment|] == h.comment
  {
    var end := at + |Encode(h)|;
    var extra := FixedLength + |h.name|;
    var comment := extra + |h.extra|;
    EncodeParts(h);
    SliceOfSlice(bytes, at, end, 0, FixedLength);
    SliceOfSlice(bytes, at, end, FixedLength, extra);
    SliceOfSlice(bytes, at, end, extra, comment);
    SliceOfSlice(bytes, at, end, comment, end - at);
  }

  lemma DecodedFromParts(bytes: seq<Byte>, at: nat, h: Header)
    requires HeaderAt(bytes, at)
    requires U16(bytes[at + 28], bytes[at + 29]) == |h.name|
    requires U16(bytes[at + 30], bytes[at + 31]) == |h.extra|
    requires U16(bytes[at + 32], bytes[at + 33]) == |h.comment|
    requires bytes[at + 4..at + 28] == h.before && bytes[at + 34..at + 46] == h.after
    requires var name := at + FixedLength; var extra := name + |h.name|; var comment := extra + |h.extra|;
      && bytes[name..extra] == h.name && bytes[extra..comment] == h.extra
      && bytes[comment..comment + |h.comment|] == h.comment
    ensures Decode(bytes, at) == h
  {
  }

  /** An encoded header inside a file is found where it stands. */
  lemma EncodedIsThere(bytes: seq<Byte>, at: nat, h: Header)
    requires WellFormed(h) && at + |Encode(h)| <= |bytes| && bytes[at..at + |Encode(h)|] == Encode(h)
    ensures HeaderAt(bytes, at) && FixedLength + VariableLength(bytes, at) == |Encode(h)|
    ensures Decode(bytes, at) == h
  {
    PartsAreThere(bytes, at, h);
    FixedIsThere(bytes, at, h);
    DecodedFromParts(bytes, at, h);
  }

  lemma FixedIsThere(bytes: seq<Byte>, at: nat, h: Header)
    requires WellFormed(h) && at + FixedLength <= |bytes| && bytes[at..at + FixedLength] == Fixed(h)
    ensures SignatureAt(bytes, at) && VariableLength(bytes, at) == |h.name| + |h.extra| + |h.comment|
    ensures U16(bytes[at + 28], bytes[at + 29]) == |h.name|
    ensures U16(bytes[at + 30], bytes[at + 31]) == |h.extra|
    ensures U16(bytes[at + 32], bytes[at + 33]) == |h.comment|
    ensures bytes[at + 4..at + 28] == h.before && bytes[at + 34..at + 46] == h.after
  {
    var f := Fixed(h);
    FixedAt(h);
    assert forall i :: 0 <= i < FixedLength ==> bytes[at + i] == f[i];
    SliceOfSlice(bytes, at, at + FixedLength, 0, 4);
    SliceOfSlice(bytes, at, at + FixedLength, 4, 28);
    SliceOfSlice(bytes, at, at + FixedLength, 34, 46);
    Lengths(bytes, at, f, h);
  }

  lemma Lengths(bytes: seq<Byte>, at: nat, f: seq<Byte>, h: Header)
    requires WellFormed(h) && at + FixedLength <= |bytes| && |f| == FixedLength
    requires forall i :: 0 <= i < FixedLength ==> bytes[at + i] == f[i]
    requires f[28..30] == Le16(|h.name|) && f[30..32] == Le16(|h.extra|) && f[32..34] == Le16(|h.comment|)
    ensures U16(bytes[at + 28], bytes[at + 29]) == |h.name|
    ensures U16(bytes[at + 30], bytes[at + 31]) == |h.extra|
    ensures U16(bytes[at + 32], bytes[at + 33]) == |h.comment|
  {
    assert f[28..30][0] == f[28] && f[28..30][1] == f[29];
    assert f[30..32][0] == f[30] && f[30..32][1] == f[31];
    assert f[32..34][0] == f[32] && f[32..34][1] == f[33];
    Le16RoundTrip(|h.name|);
    Le16RoundTrip(|h.extra|);
    Le16RoundTrip(|h.comment|);
  }

  predicate Ends(tail: seq<Byte>) {
    |tail| >= 4 && tail[..4] != Signature
  }

  lemma DirectoryStep(bytes: seq<Byte>, at: nat, n: nat, hs: seq<Header>)
    requires hs != [] && HeaderAt(bytes, at) && Decode(bytes, at) == hs[0]
    requires var next := at + FixedLength + VariableLength(bytes, at);
      Directory(bytes, next, n) && DecodeAll(bytes, next, n) == hs[1..]
    ensures Directory(bytes, at, n + 1) && DecodeAll(bytes, at, n + 1) == hs
  {
  }

  /** Writing headers and then something else, and walking from where they start, finds exactly them. */
  lemma {:induction false} DecodeEncoded(bytes: seq<Byte>, at: nat, hs: seq<Header>, tail: seq<Byte>)
    requires (forall h :: h in hs ==> WellFormed(h)) && Ends(tail)
    requires at <= |bytes| && bytes[at..] == EncodeAll(hs) + tail
    ensures Directory(bytes, at, |hs|) && DecodeAll(bytes, at, |hs|) == hs
    decreases |hs|
  {
    if hs == [] {
      EndsThere(bytes, at, tail);
    } else {
      var first, rest := Encode(hs[0]), hs[1..];
      FirstPart(bytes, at, first, EncodeAll(rest), tail);
      EncodedIsThere(bytes, at, hs[0]);
      DecodeEncoded(bytes, at + |first|, rest, tail);
      DirectoryStep(bytes, at, |rest|, hs);
    }
  }

  lemma EndsThere(bytes: seq<Byte>, at: nat, tail: seq<Byte>)
    requires at <= |bytes| && bytes[at..] == tail && Ends(tail)
    ensures Directory(bytes, at, 0)
  {
    assert bytes[at..at + 4] == bytes[at..][..4];
  }

  lemma FirstPart(bytes: seq<Byte>, at: nat, a: seq<Byte>, b: seq<Byte>, tail: seq<Byte>)
    requires at <= |bytes| && bytes[at..] == a + b + tail
    ensures at + |a| <= |bytes| && bytes[at..at + |a|] == a && bytes[at + |a|..] == b + tail
  {
  }

  /** A header read from a file is written back as the bytes it was read from. */
  lemma EncodeDecoded(bytes: seq<Byte>, at: nat)
    requires HeaderAt(bytes, at)
    ensures WellFormed(Decode(bytes, at))
    ensures Encode(Decode(bytes, at)) == bytes[at..at + FixedLength + VariableLength(bytes, at)]
  {
    var h := Decode(bytes, at);
    DecodedLengths(bytes, at);
    FixedDecoded(bytes, at, h);
    VariableDecoded(bytes, at);
    ThreeSlices(bytes, at, at, at + FixedLength, at + FixedLength + VariableLength(bytes, at));
  }

  lemma VariableDecoded(bytes: seq<Byte>, at: nat)
    requires HeaderAt(bytes, at)
    ensures var h := Decode(bytes, at); var name := at + FixedLength;
      h.name + h.extra + h.comment == bytes[name..name + VariableLength(bytes, at)]
  {
  }

  lemma ThreeSlices(bytes: seq<Byte>, a: nat, b: nat, c: nat, d: nat)
    requires a <= b <= c <= d <= |bytes|
    ensures bytes[a..b] + bytes[b..c] + bytes[c..d] == bytes[a..d]
    ensures a == b ==> bytes[b..c] + bytes[c..d] == bytes[a..d]
  {
  }

  lemma DecodedLengths(bytes: seq<Byte>, at: nat)
    requires HeaderAt(bytes, at)
    ensures var h := Decode(bytes, at);
      && WellFormed(h) && |h.name| + |h.extra| + |h.comment| == VariableLength(bytes, at)
      && h.before == bytes[at + 4..at + 28] && h.after == bytes[at + 34..at + 46]
      && Le16(|h.name|) == [bytes[at + 28], bytes[at + 29]]
      && Le16(|h.extra|) == [bytes[at + 30], bytes[at + 31]]
      && Le16(|h.comment|) == [bytes[at + 32], bytes[at + 33]]
  {
  }

  lemma FixedDecoded(bytes: seq<Byte>, at: nat, h: Header)
    requires at + FixedLength <= |bytes| && SignatureAt(bytes, at) && WellFormed(h)
    requires h.before == bytes[at + 4..at + 28] && h.after == bytes[at + 34..at + 46]
    requires Le16(|h.name|) == [bytes[at + 28], bytes[at + 29]]
    requires Le16(|h.extra|) == [bytes[at + 30], bytes[at + 31]]
    requires Le16(|h.comment|) == [bytes[at + 32], bytes[at + 33]]
    ensures Fixed(h) == bytes[at..at + FixedLength]
  {
  }

  /** `part` stands in the bytes, and what follows it ends the directory. */
  predicate EncodedAt(bytes: seq<Byte>, at: nat, part: seq<Byte>) {
    at + |part| <= |bytes| && bytes[at..at + |part|] == part && Ends(bytes[at + |part|..])
  }

  lemma EncodedJoin(bytes: seq<Byte>, at: nat, mid: nat, a: seq<Byte>, b: seq<Byte>)
    requires at <= mid <= |bytes| && bytes[at..mid] == a && EncodedAt(bytes, mid, b)
    ensures EncodedAt(bytes, at, a + b)
  {
  }

  lemma EncodeFirst(hs: seq<Header>, h: Header, rest: seq<Header>)
    requires hs == [h] + rest && WellFormed(h) && forall other :: other in rest ==> WellFormed(other)
    ensures (forall other :: other in hs ==> WellFormed(other)) && EncodeAll(hs) == Encode(h) + EncodeAll(rest)
  {
  }

  lemma EncodedEnd(bytes: seq<Byte>, at: nat)
    requires Directory(bytes, at, 0)
    ensures EncodedAt(bytes, at, [])
  {
  }

  /** What the walk accepts is nothing but the encodings of the headers it read, and then an end. */
  lemma {:induction false} EncodeAllDecoded(bytes: seq<Byte>, at: nat, n: nat)
    requires Directory(bytes, at, n)
    ensures forall h :: h in DecodeAll(bytes, at, n) ==> WellFormed(h)
    ensures EncodedAt(bytes, at, EncodeAll(DecodeAll(bytes, at, n)))
    decreases n
  {
    if n == 0 {
      EncodedEnd(bytes, at);
    } else {
      var next := at + FixedLength + VariableLength(bytes, at);
      var h, rest := Decode(bytes, at), DecodeAll(bytes, next, n - 1);
      EncodeDecoded(bytes, at);
      EncodeAllDecoded(bytes, next, n - 1);
      EncodeFirst(DecodeAll(bytes, at, n), h, rest);
      EncodedJoin(bytes, at, next, Encode(h), EncodeAll(rest));
    }
  }
}
