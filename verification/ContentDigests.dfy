/** The loops that feed a hash object with a file or a directory tree. */
module ContentDigests {
  import opened Wrappers
  import opened ByteStrings
  import opened ContentFraming

  const CHUNK: nat := 1024 * 1024

  datatype DigestError = Overflow | ChangedWhileReading

  /** `hashlib.sha256()`: what counts is the concatenation of everything it was given. */
  class Hasher {
    const hash: Bytes -> Digest
    var fed: Bytes

    constructor (hash: Bytes -> Digest)
      ensures this.hash == hash && fed == []
    {
      this.hash := hash;
      fed := [];
    }

    method Update(b: Bytes)
      modifies this
      ensures fed == old(fed) + b
    {
      fed := fed + b;
    }

    function RawDigest(): Digest
      reads this
    {
      hash(fed)
    }
  }

  /** A file opened for reading; a read is short only at the end of the file. */
  class Handle {
    const content: Bytes
    var pos: nat

    ghost predicate Valid()
      reads this
    {
      pos <= |content|
    }

    constructor (content: Bytes)
      ensures Valid() && this.content == content && pos == 0
    {
      this.content := content;
      pos := 0;
    }

    method Read(n: nat) returns (chunk: Bytes)
      requires Valid()
      modifies this
      ensures Valid() && old(pos) <= pos && chunk == content[old(pos)..pos]
      ensures |chunk| <= n && (chunk == [] ==> n == 0 || pos == |content|)
    {
      var from := pos;
      pos := if from + n <= |content| then from + n else |content|;
      chunk := content[from..pos];
    }
  }

  /** An open descriptor: `os.pread` may return less than was asked for, nothing only past the end. */
  method PRead(content: Bytes, n: nat, offset: nat) returns (chunk: Bytes)
    ensures offset + |chunk| <= |content| || chunk == []
    ensures chunk == [] || chunk == content[offset..offset + |chunk|]
    ensures |chunk| <= n && (chunk == [] <==> n == 0 || offset >= |content|)
  {
    if n == 0 || offset >= |content| {
      return [];
    }
    var k: nat :| 1 <= k <= n && offset + k <= |content|;
    chunk := content[offset..offset + k];
  }

  /** `for chunk in iter(lambda: handle.read(CHUNK), b"")`. */
  method FeedContent(h: Hasher, content: Bytes) returns (length: nat)
    modifies h
    ensures length == |content| && h.fed == old(h.fed) + content
  {
    var handle := new Handle(content);
    length := 0;
    var chunk := handle.Read(CHUNK);
    while chunk != []
      invariant fresh(handle) && handle.content == content && handle.Valid()
      invariant length + |chunk| == handle.pos && chunk == content[length..handle.pos]
      invariant chunk == [] ==> handle.pos == |content|
      invariant h.fed == old(h.fed) + content[..length]
      decreases |content| - length
    {
      assert content[..length] + chunk == content[..handle.pos];
      length := length + |chunk|;
      h.Update(chunk);
      chunk := handle.Read(CHUNK);
    }
    assert content[..length] == content;
  }

  method RawSha256File(content: Bytes, hash: Bytes -> Digest) returns (length: nat, digest: Digest)
    ensures length == |content| && digest == hash(content)
  {
    var h := new Hasher(hash);
    length := FeedContent(h, content);
    assert h.fed == content;
    digest := h.RawDigest();
  }

  /** Eight big-endian bytes, or the OverflowError of `int.to_bytes`. */
  method FeedLength(h: Hasher, n: nat) returns (r: Result<(), DigestError>)
    modifies h
    ensures n < U64_LIMIT ==> r == Ok(()) && h.fed == old(h.fed) + Big(n, 8)
    ensures n >= U64_LIMIT ==> r == Err(Overflow)
  {
    if n >= U64_LIMIT {
      return Err(Overflow);
    }
    h.Update(Big(n, 8));
    return Ok(());
  }

  /** The identity of bytes that were fed, or the error that kept them from being fed. */
  function IdentityOf(stream: Option<Bytes>, hash: Bytes -> Digest): Result<Digest, DigestError> {
    match stream
    case None => Err(Overflow)
    case Some(fed) => Ok(hash(fed))
  }

  method CompleteFileDigest(content: Bytes, hash: Bytes -> Digest) returns (r: Result<Digest, DigestError>)
    ensures r == IdentityOf(FileStream(content), hash)
  {
    var h := new Hasher(hash);
    h.Update(FILE_SCHEME);
    var length, _ := RawSha256File(content, hash);
    var _ :- FeedLength(h, length);
    var _ := FeedContent(h, content);
    assert h.fed == FileStream(content).value;
    return Ok(h.RawDigest());
  }

  method FeedFrame(h: Hasher, item: Entry<Bytes>) returns (r: Result<(), DigestError>)
    modifies h
    ensures FrameFits(Summary(item, h.hash)) ==>
      r == Ok(()) && h.fed == old(h.fed) + Frame(Summary(item, h.hash))
    ensures !FrameFits(Summary(item, h.hash)) ==> r == Err(Overflow)
  {
    var length, digest := RawSha256File(item.what, h.hash);
    var _ :- FeedLength(h, |item.path|);
    h.Update(item.path);
    h.Update(FILE_MARK);
    var _ :- FeedLength(h, length);
    h.Update(digest);
    assert h.fed == old(h.fed) + Frame(Summary(item, h.hash));
    return Ok(());
  }

  lemma SummaryPath(e: Entry<Bytes>, hash: Bytes -> Digest)
    ensures Summary(e, hash).path == e.path
  {
  }

  lemma SummariesCons(e: Entry<Bytes>, es: seq<Entry<Bytes>>, hash: Bytes -> Digest)
    ensures Summaries([e] + es, hash) == [Summary(e, hash)] + Summaries(es, hash)
  {
    hide Summary;
    assert ([e] + es)[1..] == es;
  }

  lemma {:induction false} InsertCommutes(e: Entry<Bytes>, es: seq<Entry<Bytes>>, hash: Bytes -> Digest)
    ensures Summaries(Insert(e, es), hash) == Insert(Summary(e, hash), Summaries(es, hash))
  {
    hide Below, Summary;
    if es == [] {
      assert [e][1..] == [] && Summaries([e], hash) == [Summary(e, hash)];
    } else if Below(es[0].path, e.path) {
      InsertCommutes(e, es[1..], hash);
      SummariesCons(es[0], Insert(e, es[1..]), hash);
      SummariesCons(es[0], es[1..], hash);
      assert [es[0]] + es[1..] == es;
      SummaryPath(e, hash);
      SummaryPath(es[0], hash);
    } else {
      SummariesCons(e, es, hash);
      SummaryPath(e, hash);
      SummaryPath(es[0], hash);
    }
  }

  /** Sorting by path does not look at the contents. */
  lemma {:induction false} SortedCommutes(es: seq<Entry<Bytes>>, hash: Bytes -> Digest)
    ensures Summaries(Sorted(es), hash) == Sorted(Summaries(es, hash))
  {
    hide Insert, Summary;
    if es != [] {
      SortedCommutes(es[1..], hash);
      InsertCommutes(es[0], Sorted(es[1..]), hash);
      SummariesCons(es[0], es[1..], hash);
      assert [es[0]] + es[1..] == es;
    }
  }

  lemma {:induction false} FramesSnoc(es: seq<Entry<Leaf>>, e: Entry<Leaf>)
    ensures Frames(es + [e]) == Frames(es) + Frame(e)
  {
    if es == [] {
      assert [] + [e] == [e] && Frames([e][1..]) == [];
    } else {
      assert (es + [e])[1..] == es[1..] + [e];
      FramesSnoc(es[1..], e);
    }
  }

  /** `found` is what the directory walk yields, in any order. */
  method CompleteDirectoryDigest(found: seq<Entry<Bytes>>, hash: Bytes -> Digest)
    returns (r: Result<Digest, DigestError>)
    ensures r == IdentityOf(DirectoryStream(Summaries(found, hash)), hash)
  {
    hide Frame, FrameFits, Big, Sorted, Summaries, Summary;
    var h := new Hasher(hash);
    h.Update(DIRECTORY_SCHEME);
    var entries := Sorted(found);
    ghost var es := Summaries(entries, hash);
    SortedCommutes(found, hash);
    var _ :- FeedLength(h, |entries|);
    for i := 0 to |entries|
      invariant forall k :: 0 <= k < i ==> FrameFits(es[k])
      invariant h.fed == DIRECTORY_SCHEME + Big(|es|, 8) + Frames(es[..i])
    {
      var _ :- FeedFrame(h, entries[i]);
      assert es[..i + 1] == es[..i] + [es[i]];
      FramesSnoc(es[..i], es[i]);
    }
    assert es[..|es|] == es;
    return Ok(h.RawDigest());
  }

  /**
   `_complete_identity_from_fd`: however short the reads, a descriptor of `size` bytes is identified as
   the file with that content; a file that is shorter than the size taken before is an error.
  */
  method CompleteIdentityFromFd(content: Bytes, size: nat, hash: Bytes -> Digest)
    returns (r: Result<Digest, DigestError>)
    ensures size >= U64_LIMIT ==> r == Err(Overflow)
    ensures |content| < size < U64_LIMIT ==> r == Err(ChangedWhileReading)
    ensures size <= |content| && size < U64_LIMIT ==> r == IdentityOf(FileStream(content[..size]), hash)
  {
    var h := new Hasher(hash);
    h.Update(FILE_SCHEME);
    var _ :- FeedLength(h, size);
    var offset := 0;
    while offset < size
      invariant offset <= size && offset <= |content|
      invariant h.fed == FILE_SCHEME + Big(size, 8) + content[..offset]
    {
      var chunk := PRead(content, if size - offset < CHUNK then size - offset else CHUNK, offset);
      if chunk == [] {
        return Err(ChangedWhileReading);
      }
      assert content[..offset] + chunk == content[..offset + |chunk|];
      h.Update(chunk);
      offset := offset + |chunk|;
    }
    return Ok(h.RawDigest());
  }
}
