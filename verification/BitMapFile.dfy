// BitMap::FetchFrom and BitMap::WriteBack of userprog/bitmap.cc: the words of a bitmap as the
// contents of a file.
module BitMapFile {
  import opened Bytes
  import opened BitMap
  import opened OpenFile

  method FetchFrom(bitMap: BitMap, file: OpenFile)
    requires bitMap.Valid() && file.Valid() && file.hdr.numBytes == 4 * bitMap.numWords
    modifies bitMap.storage
    ensures bitMap.Bits() == BitsOf(BytesWords(file.Bytes(), bitMap.numWords), bitMap.numBits)
  {
    var raw := file.ReadAt(bitMap.numWords * 4, 0);
    assert raw == file.Bytes();
    var words := BytesWords(raw, bitMap.numWords);
    forall i | 0 <= i < bitMap.numWords {
      bitMap.storage[i] := words[i];
    }
    assert bitMap.storage[..] == words;
  }

  method WriteBack(bitMap: BitMap, file: OpenFile)
    requires bitMap.Valid() && file.Valid() && file.hdr.numBytes == 4 * bitMap.numWords
    modifies file.disk
    ensures file.Valid() && bitMap.Bits() == BitsOf(BytesWords(file.Bytes(), bitMap.numWords), bitMap.numBits)
    ensures forall s | 0 <= s < |file.disk.sectors| && s !in file.hdr.Value().Data() ::
              file.disk.sectors[s] == old(file.disk.sectors)[s]
  {
    var raw := WordsBytes(bitMap.storage[..]);
    SpliceWhole(file.Bytes(), raw);
    var n := file.WriteAt(raw, bitMap.numWords * 4, 0);
    assert raw[..n] == raw;
    WordsRoundTrip(bitMap.storage[..]);
  }
}
