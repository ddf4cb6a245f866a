// filesys/directory.cc: the table of file names, kept in memory as an array of fixed-size
// entries and on disk as the bytes of that array.
module Directory {
  import opened Bytes
  import opened OpenFile

  const FILE_NAME_MAX_LEN := 9

  // Memory that holds a string up to its terminating NUL.
  type CString = s: seq<byte> | 0 in s witness [0]

  // The part of a string that the directory compares: up to the NUL, at most n characters.
  function Key(s: seq<byte>, n: nat): (key: seq<byte>)
    ensures |key| <= n
  {
    if n == 0 || s == [] || s[0] == 0 then [] else [s[0]] + Key(s[1..], n - 1)
  }

  lemma {:induction false} KeyIs(s: seq<byte>, n: nat)
    ensures var key := Key(s, n);
            && key <= s && 0 !in key
            && (|key| == n || |key| == |s| || s[|key|] == 0)
  {
    if n > 0 && s != [] && s[0] != 0 {
      KeyIs(s[1..], n - 1);
      assert s == [s[0]] + s[1..];
    }
  }

  // !strncmp(a, b, n): compare up to n characters, stopping at a common NUL.
  predicate StrncmpEqual(a: seq<byte>, b: seq<byte>, n: nat)
    requires n <= |a| && (n <= |b| || 0 in b)
  {
    n == 0 || (a[0] == b[0] && (a[0] == 0 || StrncmpEqual(a[1..], b[1..], n - 1)))
  }

  lemma {:induction false} StrncmpComparesKeys(a: seq<byte>, b: seq<byte>, n: nat)
    requires n <= |a| && (n <= |b| || 0 in b)
    ensures StrncmpEqual(a, b, n) <==> Key(a, n) == Key(b, n)
  {
    if n > 0 && a[0] == b[0] && a[0] != 0 {
      StrncmpComparesKeys(a[1..], b[1..], n - 1);
      assert Key(a, n)[1..] == Key(a[1..], n - 1) && Key(b, n)[1..] == Key(b[1..], n - 1);
    } else if n > 0 && a[0] != 0 && b[0] != 0 {
      assert Key(a, n)[0] != Key(b, n)[0];
    }
  }

  // strncpy(dst, src, n): the string, then NULs up to n; the rest of dst stays.
  function Strncpy(dst: seq<byte>, src: seq<byte>, n: nat): (r: seq<byte>)
    requires n <= |dst|
    ensures |r| == |dst|
  {
    var key := Key(src, n);
    key + seq(n - |key|, _ => 0) + dst[n..]
  }

  lemma {:induction false} KeyOfPadded(src: seq<byte>, n: nat, rest: seq<byte>, pad: seq<byte>)
    requires |pad| == n - |Key(src, n)| && forall i | 0 <= i < |pad| :: pad[i] == 0
    ensures Key(Key(src, n) + pad + rest, n) == Key(src, n)
  {
    var key := Key(src, n);
    if key != [] {
      KeyOfPadded(src[1..], n - 1, rest, pad);
      assert (key + pad + rest)[1..] == key[1..] + pad + rest;
    } else if n > 0 {
      assert (key + pad + rest)[0] == pad[0];
    }
  }

  lemma StrncpyKeepsKey(dst: seq<byte>, src: seq<byte>, n: nat)
    requires n <= |dst|
    ensures Key(Strncpy(dst, src, n), n) == Key(src, n)
  {
    KeyOfPadded(src, n, dst[n..], seq(n - |Key(src, n)|, _ => 0));
  }

  type NameBuffer = s: seq<byte> | |s| == FILE_NAME_MAX_LEN + 1 witness seq(FILE_NAME_MAX_LEN + 1, _ => 0)

  datatype DirectoryEntry = DirectoryEntry(inUse: bool, sector: int32, name: NameBuffer) {
    predicate Named(key: seq<byte>) {
      inUse && Key(name, FILE_NAME_MAX_LEN) == key
    }
  }

  function Unused(e: DirectoryEntry): DirectoryEntry {
    e.(inUse := false)
  }

  // One entry takes 20 bytes: a bool, an int on the next multiple of four, the name, and padding.
  function EntryBytes(e: DirectoryEntry): (b: seq<byte>)
    ensures |b| == 20
  {
    [if e.inUse then 1 else 0, 0, 0, 0] + WordBytes(Unsigned(e.sector)) + e.name + [0, 0]
  }

  function BytesEntry(b: seq<byte>): DirectoryEntry
    requires |b| == 20
  {
    DirectoryEntry(b[0] != 0, Signed(BytesWord(b[4..8])), b[8..18])
  }

  lemma EntryRoundTrip(e: DirectoryEntry)
    ensures BytesEntry(EntryBytes(e)) == e
  {
    var b := EntryBytes(e);
    assert b[4..8] == WordBytes(Unsigned(e.sector));
    assert b[8..18] == e.name;
    WordRoundTrip(Unsigned(e.sector));
  }

  function TableBytes(table: seq<DirectoryEntry>): (b: seq<byte>)
    ensures |b| == 20 * |table|
  {
    if table == [] then [] else TableBytes(table[..|table| - 1]) + EntryBytes(table[|table| - 1])
  }

  function BytesTable(b: seq<byte>, n: nat): (table: seq<DirectoryEntry>)
    requires |b| == 20 * n
    ensures |table| == n
  {
    if n == 0 then [] else BytesTable(b[..20 * (n - 1)], n - 1) + [BytesEntry(b[20 * (n - 1)..])]
  }

  lemma LastEntry(a: seq<byte>, b: seq<byte>, n: nat)
    requires |a| == 20 * n && |b| == 20
    ensures BytesTable(a + b, n + 1) == BytesTable(a, n) + [BytesEntry(b)]
  {
    assert (a + b)[..20 * n] == a && (a + b)[20 * n..] == b;
  }

  lemma {:induction false} TableRoundTrip(table: seq<DirectoryEntry>)
    ensures BytesTable(TableBytes(table), |table|) == table
  {
    if table != [] {
      var n := |table| - 1;
      TableRoundTrip(table[..n]);
      EntryRoundTrip(table[n]);
      LastEntry(TableBytes(table[..n]), EntryBytes(table[n]), n);
    }
  }

  // Where the directory finds a name, and where it puts a new one, among the first n entries;
  // -1 if nowhere.
  function IndexBelow(table: seq<DirectoryEntry>, n: nat, key: seq<byte>): (i: int)
    requires n <= |table|
    ensures -1 <= i < n
  {
    if n == 0 then -1
    else if IndexBelow(table, n - 1, key) != -1 then IndexBelow(table, n - 1, key)
    else if table[n - 1].Named(key) then n - 1 else -1
  }

  function FreeBelow(table: seq<DirectoryEntry>, n: nat): (i: int)
    requires n <= |table|
    ensures -1 <= i < n
    ensures i == -1 <==> forall j | 0 <= j < n :: table[j].inUse
    ensures i != -1 ==> !table[i].inUse && forall j | 0 <= j < i :: table[j].inUse
  {
    if n == 0 then -1
    else if FreeBelow(table, n - 1) != -1 then FreeBelow(table, n - 1)
    else if table[n - 1].inUse then -1 else n - 1
  }

  function IndexOf(table: seq<DirectoryEntry>, key: seq<byte>): int {
    IndexBelow(table, |table|, key)
  }

  lemma {:induction false} IndexMeans(table: seq<DirectoryEntry>, n: nat, key: seq<byte>)
    requires n <= |table|
    ensures var i := IndexBelow(table, n, key);
            if i == -1 then forall j | 0 <= j < n :: !table[j].Named(key)
            else table[i].Named(key) && forall j | 0 <= j < i :: !table[j].Named(key)
  {
    if n > 0 {
      IndexMeans(table, n - 1, key);
    }
  }

  function FreeIndex(table: seq<DirectoryEntry>): int {
    FreeBelow(table, |table|)
  }

  // A name stands for the part of it that the directory compares.
  function NameKey(name: CString): seq<byte> {
    Key(name, FILE_NAME_MAX_LEN)
  }

  class Directory {
    const tableSize: nat
    const table: array<DirectoryEntry>

    ghost predicate Valid() {
      table.Length == tableSize
    }

    // Names and sectors of a new table are not set.
    constructor (size: nat)
      ensures Valid() && fresh(table) && tableSize == size
      ensures forall i | 0 <= i < size :: !table[i].inUse
    {
      tableSize := size;
      table := new DirectoryEntry[size];
      new;
      for i := 0 to size
        invariant forall j | 0 <= j < i :: !table[j].inUse
      {
        table[i] := Unused(table[i]);
      }
    }

    method FetchFrom(file: OpenFile)
      requires Valid() && file.Valid() && file.hdr.numBytes == 20 * tableSize
      modifies table
      ensures table[..] == BytesTable(file.Bytes(), tableSize)
    {
      var raw := file.ReadAt(tableSize * 20, 0);
      assert raw == file.Bytes();
      var entries := BytesTable(raw, tableSize);
      forall i | 0 <= i < tableSize {
        table[i] := entries[i];
      }
      assert table[..] == entries;
    }

    method WriteBack(file: OpenFile)
      requires Valid() && file.Valid() && file.hdr.numBytes == 20 * tableSize
      modifies file.disk
      ensures file.Valid() && file.Bytes() == TableBytes(table[..])
      ensures forall s | 0 <= s < |file.disk.sectors| && s !in file.hdr.Value().Data() ::
                file.disk.sectors[s] == old(file.disk.sectors)[s]
    {
      var raw := TableBytes(table[..]);
      SpliceWhole(file.Bytes(), raw);
      var n := file.WriteAt(raw, tableSize * 20, 0);
      assert raw[..n] == raw;
    }

    method FindIndex(name: CString) returns (index: int)
      requires Valid()
      ensures index == IndexOf(table[..], NameKey(name))
    {
      IndexMeans(table[..], tableSize, NameKey(name));
      for i := 0 to tableSize
        invariant forall j | 0 <= j < i :: !table[..][j].Named(NameKey(name))
      {
        StrncmpComparesKeys(table[i].name, name, FILE_NAME_MAX_LEN);
        if table[i].inUse && StrncmpEqual(table[i].name, name, FILE_NAME_MAX_LEN) {
          assert table[..][i].Named(NameKey(name));
          return i;
        }
      }
      return -1;
    }

    method Find(name: CString) returns (sector: int)
      requires Valid()
      ensures var i := IndexOf(table[..], NameKey(name));
              sector == if i == -1 then -1 else table[i].sector
    {
      var i := FindIndex(name);
      if i != -1 {
        return table[i].sector;
      }
      return -1;
    }

    method Add(name: CString, newSector: int32) returns (ok: bool)
      requires Valid()
      modifies table
      ensures ok <==> IndexOf(old(table[..]), NameKey(name)) == -1 && FreeIndex(old(table[..])) != -1
      ensures !ok ==> table[..] == old(table[..])
      ensures ok ==> var i := FreeIndex(old(table[..]));
                && table[..] == old(table[..])[i := DirectoryEntry(true, newSector, table[i].name)]
                && table[i].Named(NameKey(name))
    {
      var index := FindIndex(name);
      if index != -1 {
        return false;
      }
      for i := 0 to tableSize
        invariant table[..] == old(table[..])
        invariant forall j | 0 <= j < i :: table[..][j].inUse
      {
        if !table[i].inUse {
          StrncpyKeepsKey(table[i].name, name, FILE_NAME_MAX_LEN);
          assert i == FreeIndex(table[..]) by {
            assert !table[..][i].inUse;
          }
          table[i] := DirectoryEntry(true, newSector, Strncpy(table[i].name, name, FILE_NAME_MAX_LEN));
          return true;
        }
      }
      return false;
    }

    method Remove(name: CString) returns (ok: bool)
      requires Valid()
      modifies table
      ensures var i := IndexOf(old(table[..]), NameKey(name));
              && ok == (i != -1)
              && table[..] == if i == -1 then old(table[..]) else old(table[..])[i := Unused(old(table[i]))]
    {
      var i := FindIndex(name);
      if i == -1 {
        return false;
      }
      table[i] := Unused(table[i]);
      return true;
    }
  }
}
