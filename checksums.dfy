/** The checksum engine of checkr/helpers.py: a file is read in chunks of
    8192 bytes that are fed to a streaming hash object, and the algorithm
    name selects which hash is used. The hash functions themselves belong to
    hashlib and are parameters of the model. */
module Checksums {
  import opened Basics

  /** The size of each read in the chunked read loop. */
  const ChunkSize: nat := 8192

  /** The digests hashlib computes, left uninterpreted: each maps the whole
      sequence of bytes fed to a hash object to its hex digest. */
  datatype HashLib = HashLib(md5: Bytes -> string, blake2b: Bytes -> string)

  /** The contents of the files the workflow reads, by path. */
  type FileSystem = map<string, Bytes>

  predicate IsHexDigit(c: char) {
    '0' <= c <= '9' || 'a' <= c <= 'f'
  }

  predicate IsHexString(s: string, length: nat) {
    |s| == length && forall i :: 0 <= i < |s| ==> IsHexDigit(s[i])
  }

  /** What hashlib guarantees of hexdigest(): 16 bytes of MD5 and the 64 bytes
      of default BLAKE2b, as lower-case hex. */
  ghost predicate HexDigests(lib: HashLib) {
    (forall b: Bytes :: IsHexString(lib.md5(b), 32)) &&
    (forall b: Bytes :: IsHexString(lib.blake2b(b), 128))
  }

  function Min(a: int, b: int): int {
    if a <= b then a else b
  }

  /** All chunks one after the other. */
  function Flatten(chunks: seq<Bytes>): Bytes {
    if chunks == [] then [] else Flatten(chunks[..|chunks| - 1]) + chunks[|chunks| - 1]
  }

  lemma FlattenAppend(chunks: seq<Bytes>, c: Bytes)
    ensures Flatten(chunks + [c]) == Flatten(chunks) + c
  {
    assert (chunks + [c])[..|chunks|] == chunks;
  }

  /** The shape of the chunks the read loop feeds: none is empty or longer
      than ChunkSize, and every one but the last is exactly ChunkSize long. */
  predicate Chunked(chunks: seq<Bytes>) {
    (forall i :: 0 <= i < |chunks| ==> 0 < |chunks[i]| <= ChunkSize) &&
    (forall i :: 0 <= i < |chunks| - 1 ==> |chunks[i]| == ChunkSize)
  }

  /** A non-empty chunk read after a full one keeps that shape. */
  lemma ChunkedAppend(chunks: seq<Bytes>, chunk: Bytes)
    requires Chunked(chunks) && (chunks == [] || |chunks[|chunks| - 1]| == ChunkSize)
    requires 0 < |chunk| <= ChunkSize
    ensures Chunked(chunks + [chunk])
  {
    var c := chunks + [chunk];
    forall i | 0 <= i < |c| - 1 ensures |c[i]| == ChunkSize {
      assert c[i] == chunks[i];
    }
  }

  /** A file opened with mode "rb": its bytes and the current read position. */
  class BinaryReader {
    const content: Bytes
    var pos: nat

    ghost predicate Valid()
      reads this
    {
      pos <= |content|
    }

    constructor (content: Bytes)
      ensures Valid() && this.content == content && pos == 0
    {
      this.content := content;
      pos := 0;
    }

    /** f.read(size): the next at most `size` bytes, empty at the end of the file. */
    method Read(size: nat) returns (chunk: Bytes)
      requires Valid()
      modifies this
      ensures Valid()
      ensures chunk == content[old(pos)..old(pos) + Min(size, |content| - old(pos))]
      ensures pos == old(pos) + |chunk|
    {
      chunk := content[pos..pos + Min(size, |content| - pos)];
      pos := pos + |chunk|;
    }
  }

  /** A hashlib hash object: the bytes fed to it so far, and the digest function. */
  class HashObject {
    const digestOf: Bytes -> string
    var fed: Bytes

    constructor (digestOf: Bytes -> string)
      ensures this.digestOf == digestOf && fed == []
    {
      this.digestOf := digestOf;
      fed := [];
    }

    /** hash.update(chunk): streaming input is the same as feeding the concatenation. */
    method Update(chunk: Bytes)
      modifies this
      ensures fed == old(fed) + chunk
    {
      fed := fed + chunk;
    }

    function HexDigest(): string
      reads this
    {
      digestOf(fed)
    }
  }

  /** What the read loop knows before each test of its condition: the hash
      has been fed the earlier chunks, which with the chunk just read make up
      the bytes read so far; a short chunk comes only at the end of the file,
      and only an empty read follows a short chunk. */
  ghost predicate ReadState(content: Bytes, pos: nat, fed: Bytes, chunk: Bytes, chunks: seq<Bytes>) {
    pos <= |content| && fed == Flatten(chunks) && fed + chunk == content[..pos] &&
    |chunk| <= ChunkSize && (|chunk| < ChunkSize ==> pos == |content|) &&
    Chunked(chunks) && (|chunks| > 0 && |chunks[|chunks| - 1]| < ChunkSize ==> chunk == [])
  }

  /** One iteration: feed the chunk, then read the next one. */
  lemma ReadStateStep(content: Bytes, pos: nat, fed: Bytes, chunk: Bytes, chunks: seq<Bytes>)
    requires ReadState(content, pos, fed, chunk, chunks) && |chunk| > 0
    ensures var next := content[pos..pos + Min(ChunkSize, |content| - pos)];
            ReadState(content, pos + |next|, fed + chunk, next, chunks + [chunk])
  {
    var next := content[pos..pos + Min(ChunkSize, |content| - pos)];
    FlattenAppend(chunks, chunk);
    ChunkedAppend(chunks, chunk);
    assert content[..pos + |next|] == content[..pos] + next;
  }

  /** The loop `while chunk := f.read(8192): file_hash.update(chunk)` shared by
      md5 and blake2b. `chunks` are the pieces fed to the hash, in order. */
  method DigestStream(content: Bytes, digestOf: Bytes -> string) returns (digest: string, ghost chunks: seq<Bytes>)
    ensures digest == digestOf(content)
    ensures Flatten(chunks) == content
    ensures Chunked(chunks)
  {
    var f := new BinaryReader(content);
    var h := new HashObject(digestOf);
    chunks := [];
    var chunk := f.Read(ChunkSize);
    while |chunk| > 0
      invariant f.Valid() && f.content == content && h.digestOf == digestOf
      invariant ReadState(content, f.pos, h.fed, chunk, chunks)
      decreases |content| - f.pos, |chunk|
    {
      ReadStateStep(content, f.pos, h.fed, chunk, chunks);
      h.Update(chunk);
      chunks := chunks + [chunk];
      chunk := f.Read(ChunkSize);
    }
    assert h.fed == content[..|content|] == content;
    digest := h.HexDigest();
  }

  /** md5(filename) of helpers.py. */
  method Md5(lib: HashLib, fs: FileSystem, filename: string) returns (digest: string)
    requires filename in fs
    ensures digest == lib.md5(fs[filename])
  {
    ghost var chunks;
    digest, chunks := DigestStream(fs[filename], lib.md5);
  }

  /** blake2b(filename) of helpers.py. */
  method Blake2b(lib: HashLib, fs: FileSystem, filename: string) returns (digest: string)
    requires filename in fs
    ensures digest == lib.blake2b(fs[filename])
  {
    ghost var chunks;
    digest, chunks := DigestStream(fs[filename], lib.blake2b);
  }

  /** The checksum of some file content under an algorithm name, as
      create_checksum computes it; None for a name it does not know. */
  function Checksum(lib: HashLib, algorithm: string, content: Bytes): Option<string> {
    if algorithm == "blake2b" then Some(lib.blake2b(content))
    else if algorithm == "md5" then Some(lib.md5(content))
    else None
  }

  /** create_checksum(filename, algorithm) of helpers.py. */
  method CreateChecksum(lib: HashLib, fs: FileSystem, filename: string, algorithm: string := "blake2b")
    returns (r: Option<string>)
    requires filename in fs
    ensures algorithm == "blake2b" ==> r == Some(lib.blake2b(fs[filename]))
    ensures algorithm == "md5" ==> r == Some(lib.md5(fs[filename]))
    ensures r.None? <==> algorithm != "blake2b" && algorithm != "md5"
    ensures r == Checksum(lib, algorithm, fs[filename])
  {
    if algorithm == "blake2b" {
      var d := Blake2b(lib, fs, filename);
      r := Some(d);
    } else if algorithm == "md5" {
      var d := Md5(lib, fs, filename);
      r := Some(d);
    } else {
      r := None;
    }
  }

  /** A checksum the library produces is never empty, so the workflow's
      truth test on a stored checksum reads it as present. */
  lemma SupportedChecksumIsTruthy(lib: HashLib, algorithm: string, content: Bytes)
    requires HexDigests(lib)
    ensures Truthy(Checksum(lib, algorithm, content)) <==> algorithm == "blake2b" || algorithm == "md5"
  {
    if algorithm == "blake2b" {
      assert IsHexString(lib.blake2b(content), 128);
    } else if algorithm == "md5" {
      assert IsHexString(lib.md5(content), 32);
    }
  }

  /** The comparison shared by check_file_against_csv and check_file_against_db:
      nothing stored gives None, otherwise whether the stored checksum equals
      the fresh one (a fresh None never equals a stored string). */
  function Compare(stored: Option<string>, computed: Option<string>): (r: Option<bool>)
    ensures r.None? <==> stored.None?
    ensures r == Some(true) <==> stored.Some? && computed == stored
    ensures r == Some(false) <==> stored.Some? && computed != stored
  {
    match stored
    case None => None
    case Some(s) => Some(computed == Some(s))
  }
}
