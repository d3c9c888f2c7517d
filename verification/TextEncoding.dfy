/**
 Encoding text for a bounded write: the size is measured piece by piece before the whole is encoded.
 */
module TextEncoding {
  import opened Common
  import opened Json

  const PIECE := 64 * 1024

  datatype Encoded = Bytes(bytes: seq<Byte>) | TooLarge | NotUnicode

  predicate IsUnicode(t: Text) { forall i :: 0 <= i < |t| ==> !IsSurrogate(t[i]) }

  lemma {:induction false} AtLeastOneByte(t: Text)
    ensures |t| <= |Utf8(t)|
  {
    if t != [] {
      AtLeastOneByte(t[1..]);
    }
  }

  /** The text branch of `_as_bytes`: the encoding is returned exactly when the text is Unicode and its
      encoding fits, whatever the pieces. */
  method AsBytes(contents: Text, maxBytes: nat) returns (r: Encoded)
    ensures r.Bytes? <==> IsUnicode(contents) && |Utf8(contents)| <= maxBytes
    ensures r.Bytes? ==> r.bytes == Utf8(contents)
    ensures r.TooLarge? ==> |Utf8(contents)| > maxBytes
    ensures r.NotUnicode? ==> !IsUnicode(contents)
  {
    hide Utf8;
    AtLeastOneByte(contents);
    if |contents| > maxBytes { return TooLarge; }
    var size, offset := 0, 0;
    EmptyEncoding();
    assert contents[..0] == [];
    while offset < |contents|
      invariant 0 <= offset <= |contents| && size == |Utf8(contents[..offset])| <= maxBytes
      invariant IsUnicode(contents[..offset])
    {
      var end := if offset + PIECE <= |contents| then offset + PIECE else |contents|;
      var piece := contents[offset..end];
      assert contents[..end] == contents[..offset] + piece;
      Utf8Concat(contents[..offset], piece);
      if !IsUnicode(piece) {
        PieceOf(contents, offset, end);
        return NotUnicode;
      }
      size := size + |Utf8(piece)|;
      if size > maxBytes {
        assert contents == contents[..end] + contents[end..];
        Utf8Concat(contents[..end], contents[end..]);
        return TooLarge;
      }
      offset := end;
    }
    assert contents[..offset] == contents;
    return Bytes(Utf8(contents));
  }

  lemma EmptyEncoding()
    ensures Utf8([]) == []
  {
  }

  lemma PieceOf(t: Text, i: nat, j: nat)
    requires i <= j <= |t| && !IsUnicode(t[i..j])
    ensures !IsUnicode(t)
  {
    var k :| 0 <= k < |t[i..j]| && IsSurrogate(t[i..j][k]);
    assert t[i + k] == t[i..j][k];
  }
}
