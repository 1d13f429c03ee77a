/** The streamed, authenticated encryption of database backups (scripts/postgres-backup-crypto.py)
    over an abstract AEAD: counter-mode encryption by a key stream and a tag over header and
    ciphertext, as in sections 7.1 and 7.2 of NIST SP 800-38D. */
module BackupCodec {
  import opened Basics

  type Bytes = seq<bv8>

  const NONCE_BYTES := 12
  const TAG_BYTES := 16
  const CHUNK_BYTES := 1048576

  const ZERO_TAG: Bytes := [0, 0, 0, 0, 0, 0, 0, 0, 0, 0, 0, 0, 0, 0, 0, 0]

  type Tag = t: Bytes | |t| == TAG_BYTES witness ZERO_TAG

  /** "ELECTRONIC-MAIL-PG-BACKUP", zero, one. */
  const MAGIC: Bytes := [
    0x45, 0x4c, 0x45, 0x43, 0x54, 0x52, 0x4f, 0x4e, 0x49, 0x43, 0x2d, 0x4d, 0x41, 0x49, 0x4c, 0x2d, 0x50, 0x47,
    0x2d, 0x42, 0x41, 0x43, 0x4b, 0x55, 0x50, 0x00, 0x01]

  const HEADER_BYTES := 39

  /** The key stream byte at a position, and the tag of header and ciphertext. */
  datatype Aead = Aead(stream: (Bytes, Bytes, nat) -> bv8, mac: (Bytes, Bytes, Bytes, Bytes) -> Tag)

  // ---------------------------------------------------------------------------------
  // Archives

  /** Encryption and decryption are the same exclusive-or with the key stream. */
  function Crypt(a: Aead, key: Bytes, nonce: Bytes, from: nat, data: Bytes): (r: Bytes)
    ensures |r| == |data|
  {
    seq(|data|, i requires 0 <= i < |data| => data[i] ^ a.stream(key, nonce, from + i))
  }

  function Archive(a: Aead, key: Bytes, nonce: Bytes, plain: Bytes): Bytes {
    var header, sealed := MAGIC + nonce, Crypt(a, key, nonce, 0, plain);
    header + sealed + a.mac(key, nonce, header, sealed)
  }

  datatype Layout = Layout(header: Bytes, nonce: Bytes, tag: Bytes, size: nat)

  function LayoutOf(data: Bytes): Option<Layout> {
    if |data| < HEADER_BYTES + TAG_BYTES || data[..|MAGIC|] != MAGIC then None
    else Some(Layout(data[..HEADER_BYTES], data[|MAGIC|..HEADER_BYTES], data[|data| - TAG_BYTES..], |data| - HEADER_BYTES - TAG_BYTES))
  }

  function Sealed(data: Bytes, l: Layout): (r: Bytes)
    requires HEADER_BYTES + l.size <= |data|
    ensures |r| == l.size
  {
    data[HEADER_BYTES..HEADER_BYTES + l.size]
  }

  /** The plaintext of an authentic archive. */
  function Open(a: Aead, key: Bytes, data: Bytes): Option<Bytes> {
    match LayoutOf(data)
    case None => None
    case Some(l) =>
      if a.mac(key, l.nonce, l.header, Sealed(data, l)) == l.tag then Some(Crypt(a, key, l.nonce, 0, Sealed(data, l))) else None
  }

  lemma CryptTwice(a: Aead, key: Bytes, nonce: Bytes, from: nat, data: Bytes)
    ensures Crypt(a, key, nonce, from, Crypt(a, key, nonce, from, data)) == data
  {
    var once := Crypt(a, key, nonce, from, data);
    forall i | 0 <= i < |data| ensures Crypt(a, key, nonce, from, once)[i] == data[i] {
      Xor(data[i], a.stream(key, nonce, from + i));
    }
  }

  lemma Xor(x: bv8, k: bv8)
    ensures (x ^ k) ^ k == x
  {
  }

  /** Chunk by chunk is the same as at once. */
  lemma CryptJoins(a: Aead, key: Bytes, nonce: Bytes, from: nat, x: Bytes, y: Bytes)
    ensures Crypt(a, key, nonce, from, x + y) == Crypt(a, key, nonce, from, x) + Crypt(a, key, nonce, from + |x|, y)
  {
  }

  lemma ArchiveLayout(a: Aead, key: Bytes, nonce: Bytes, plain: Bytes)
    requires |nonce| == NONCE_BYTES
    ensures var data, sealed := Archive(a, key, nonce, plain), Crypt(a, key, nonce, 0, plain);
      && LayoutOf(data) == Some(Layout(MAGIC + nonce, nonce, a.mac(key, nonce, MAGIC + nonce, sealed), |plain|))
      && Sealed(data, LayoutOf(data).value) == sealed
  {
    var header, sealed := MAGIC + nonce, Crypt(a, key, nonce, 0, plain);
    var data := Archive(a, key, nonce, plain);
    assert |header| == HEADER_BYTES && data[..HEADER_BYTES] == header;
    assert header[..|MAGIC|] == MAGIC && header[|MAGIC|..] == nonce;
  }

  /** An archive opens to a plaintext if and only if it is the encryption of that plaintext under
      some nonce: in particular every plaintext comes back. */
  lemma OpensExactlyEncryptions(a: Aead, key: Bytes, data: Bytes, plain: Bytes)
    ensures Open(a, key, data) == Some(plain) <==> exists nonce :: |nonce| == NONCE_BYTES && data == Archive(a, key, nonce, plain)
  {
    if Open(a, key, data) == Some(plain) {
      var l := LayoutOf(data).value;
      var sealed := Sealed(data, l);
      CryptTwice(a, key, l.nonce, 0, sealed);
      assert l.header == MAGIC + l.nonce;
      assert data == l.header + sealed + l.tag;
      assert data == Archive(a, key, l.nonce, plain);
    }
    if nonce :| |nonce| == NONCE_BYTES && data == Archive(a, key, nonce, plain) {
      ArchiveLayout(a, key, nonce, plain);
      CryptTwice(a, key, nonce, 0, plain);
    }
  }

  // ---------------------------------------------------------------------------------
  // Streams

  /** A file that is read from a position; a read may return less than asked for, but something
      unless the end is reached. */
  class Source {
    const data: Bytes
    var pos: nat

    constructor (data: Bytes)
      ensures this.data == data && pos == 0
    {
      this.data, pos := data, 0;
    }

    method Read(n: nat) returns (chunk: Bytes)
      requires pos <= |data| && n > 0
      modifies this
      ensures pos == old(pos) + |chunk| <= |data| && chunk == data[old(pos)..pos]
      ensures |chunk| <= n && (chunk == [] <==> old(pos) == |data|)
    {
      if pos == |data| {
        return [];
      }
      var k: nat :| 1 <= k <= n && pos + k <= |data|;
      chunk := data[pos..pos + k];
      pos := pos + k;
    }

    /** Header and tag are read whole from the buffered file. */
    method ReadAt(at: nat, n: nat) returns (chunk: Bytes)
      requires at + n <= |data|
      modifies this
      ensures pos == at + n && chunk == data[at..at + n]
    {
      chunk := data[at..at + n];
      pos := at + n;
    }

    method Seek(at: nat)
      modifies this
      ensures pos == at
    {
      pos := at;
    }
  }

  method WriteTo(destination: Sink?, chunk: Bytes)
    modifies destination
    ensures destination != null ==> destination.written == old(destination.written) + chunk
  {
    if destination != null {
      destination.Write(chunk);
    }
  }

  class Sink {
    var written: Bytes

    constructor ()
      ensures written == []
    {
      written := [];
    }

    method Write(chunk: Bytes)
      modifies this
      ensures written == old(written) + chunk
    {
      written := written + chunk;
    }
  }

  /** The cipher context: it turns one chunk after the other and remembers what the tag covers. */
  class Cipher {
    const a: Aead
    const key: Bytes
    const nonce: Bytes
    const header: Bytes
    var offset: nat

    constructor (a: Aead, key: Bytes, nonce: Bytes, header: Bytes)
      ensures this.a == a && this.key == key && this.nonce == nonce && this.header == header && offset == 0
    {
      this.a, this.key, this.nonce, this.header, offset := a, key, nonce, header, 0;
    }

    method Update(chunk: Bytes) returns (r: Bytes)
      modifies this
      ensures r == Crypt(a, key, nonce, old(offset), chunk) && offset == old(offset) + |chunk|
    {
      r := Crypt(a, key, nonce, offset, chunk);
      offset := offset + |chunk|;
    }
  }

  // ---------------------------------------------------------------------------------
  // The scripts

  method EncryptStream(a: Aead, key: Bytes, nonce: Bytes, source: Source, destination: Sink)
    requires |nonce| == NONCE_BYTES && source.pos == 0
    modifies source, destination
    ensures destination.written == old(destination.written) + Archive(a, key, nonce, source.data)
  {
    var header := MAGIC + nonce;
    var encryptor := new Cipher(a, key, nonce, header);
    destination.Write(header);
    ghost var start := destination.written;
    var covered: Bytes := [];
    var chunk := source.Read(CHUNK_BYTES);
    ghost var before := 0;
    while chunk != []
      invariant before + |chunk| == source.pos <= |source.data| && chunk == source.data[before..source.pos]
      invariant chunk == [] ==> source.pos == |source.data|
      invariant encryptor.offset == before && covered == Crypt(a, key, nonce, 0, source.data[..before])
      invariant destination.written == start + covered
      decreases |source.data| - before
    {
      var part := encryptor.Update(chunk);
      CryptJoins(a, key, nonce, 0, source.data[..before], chunk);
      assert source.data[..before] + chunk == source.data[..source.pos];
      destination.Write(part);
      covered := covered + part;
      before := source.pos;
      chunk := source.Read(CHUNK_BYTES);
    }
    assert source.data[..before] == source.data;
    destination.Write(a.mac(key, nonce, header, covered));
  }

  method EncryptedLayout(source: Source) returns (layout: Option<Layout>)
    modifies source
    ensures layout == LayoutOf(source.data)
  {
    var size := |source.data|;
    if size < |MAGIC| + NONCE_BYTES + TAG_BYTES {
      return None;
    }
    var magic := source.ReadAt(0, |MAGIC|);
    assert magic == source.data[..|MAGIC|];
    if magic != MAGIC {
      return None;
    }
    var nonce := source.ReadAt(|MAGIC|, NONCE_BYTES);
    var tag := source.ReadAt(size - TAG_BYTES, TAG_BYTES);
    assert magic + nonce == source.data[..HEADER_BYTES] && tag == source.data[size - TAG_BYTES..];
    layout := Some(Layout(magic + nonce, nonce, tag, size - HEADER_BYTES - TAG_BYTES));
  }

  /** One pass over the ciphertext. Plaintext is written as it is decrypted, before the tag is
      checked at the end. */
  method DecryptPass(a: Aead, key: Bytes, source: Source, l: Layout, destination: Sink?) returns (authentic: bool)
    requires HEADER_BYTES + l.size <= |source.data|
    modifies source, destination
    ensures authentic == (a.mac(key, l.nonce, l.header, Sealed(source.data, l)) == l.tag)
    ensures destination != null ==> destination.written == old(destination.written) + Crypt(a, key, l.nonce, 0, Sealed(source.data, l))
  {
    var decryptor := new Cipher(a, key, l.nonce, l.header);
    ghost var start := if destination != null then destination.written else [];
    ghost var sealed := Sealed(source.data, l);
    source.Seek(HEADER_BYTES);
    var remaining := l.size;
    var covered: Bytes := [];
    while remaining > 0
      invariant 0 <= remaining <= l.size && source.pos == HEADER_BYTES + l.size - remaining
      invariant covered == sealed[..l.size - remaining] && decryptor.offset == l.size - remaining
      invariant destination != null ==> destination.written == start + Crypt(a, key, l.nonce, 0, covered)
      decreases remaining
    {
      var chunk := source.Read(Min(CHUNK_BYTES, remaining));
      assert covered + chunk == sealed[..l.size - remaining + |chunk|];
      remaining := remaining - |chunk|;
      var plaintext := decryptor.Update(chunk);
      CryptJoins(a, key, l.nonce, 0, covered, chunk);
      WriteTo(destination, plaintext);
      covered := covered + chunk;
    }
    assert sealed[..l.size] == sealed;
    authentic := a.mac(key, l.nonce, l.header, covered) == l.tag;
  }

  /** Decrypts to a file, which exists afterwards only if the archive was authentic. */
  method Decrypt(a: Aead, key: Bytes, source: Source) returns (output: Option<Bytes>)
    modifies source
    ensures output == Open(a, key, source.data)
  {
    var l := EncryptedLayout(source);
    if l.None? {
      return None;
    }
    var file := new Sink();
    var authentic := DecryptPass(a, key, source, l.value, file);
    assert file.written == Crypt(a, key, l.value.nonce, 0, Sealed(source.data, l.value));
    output := if authentic then Some(file.written) else None;
  }

  /** Decrypts to the standard output: the archive is copied, checked against an expected digest if
      one is given, and authenticated as a whole before anything is written. */
  method DecryptStdout(a: Aead, key: Bytes, input: Source, digest: Bytes -> string, expected: Option<string>, stdout: Sink) returns (ok: bool)
    requires input.pos == 0
    modifies input, stdout
    ensures ok <==> (expected.Some? ==> digest(input.data) == expected.value) && Open(a, key, input.data).Some?
    ensures stdout.written == if ok then old(stdout.written) + Open(a, key, input.data).value else old(stdout.written)
  {
    var copy: Bytes := [];
    var chunk := input.Read(CHUNK_BYTES);
    while chunk != []
      invariant |copy| + |chunk| == input.pos <= |input.data| && copy + chunk == input.data[..input.pos]
      invariant chunk == [] ==> input.pos == |input.data|
      invariant stdout.written == old(stdout.written)
      decreases |input.data| - |copy|
    {
      copy := copy + chunk;
      chunk := input.Read(CHUNK_BYTES);
      assert copy + chunk == input.data[..input.pos];
    }
    assert copy == copy + [] == input.data[..input.pos] == input.data;
    if expected.Some? && digest(copy) != expected.value {
      return false;
    }
    var snapshot := new Source(copy);
    var l := EncryptedLayout(snapshot);
    if l.None? {
      return false;
    }
    ok := DecryptPass(a, key, snapshot, l.value, null);
    if ok {
      var again := DecryptPass(a, key, snapshot, l.value, stdout);
    }
  }

  /** What one run of the script encrypts another decrypts, however the reads are cut up. */
  method RoundTrip(a: Aead, key: Bytes, nonce: Bytes, plain: Source, archive: Sink, stdout: Sink) returns (ok: bool)
    requires |nonce| == NONCE_BYTES && plain.pos == 0 && archive.written == [] && archive != stdout
    modifies plain, archive, stdout
    ensures ok && stdout.written == old(stdout.written) + plain.data
  {
    EncryptStream(a, key, nonce, plain, archive);
    assert archive.written == Archive(a, key, nonce, plain.data);
    var input := new Source(archive.written);
    OpensExactlyEncryptions(a, key, archive.written, plain.data);
    ok := DecryptStdout(a, key, input, _ => "", None, stdout);
  }
}
