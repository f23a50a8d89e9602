/**
 The bytes that are hashed to identify a file or a directory tree, a decoder that inverts them, and what
 an equality of two identities therefore means. SHA-256 is a parameter, never interpreted.
*/
module ContentFraming {
  import opened Wrappers
  import opened ByteStrings

  type Digest = b: Bytes | |b| == 32 witness seq(32, _ => 0)

  const FILE_SCHEME: Bytes := Ascii("complete-file-v1") + [0]
  const DIRECTORY_SCHEME: Bytes := Ascii("complete-directory-manifest-v1") + [0]
  const FILE_MARK: Bytes := Ascii("file") + [0]

  datatype Leaf = Leaf(length: nat, digest: Digest)

  /** One file below the directory: its relative POSIX path in UTF-8, and what is known of it. */
  datatype Entry<T> = Entry(path: Bytes, what: T)

  // ----- the order of the listing ----------------------------------------------------------------

  /** Python's order on `bytes`. */
  predicate Below(a: Bytes, b: Bytes) {
    b != [] && (a == [] || a[0] < b[0] || (a[0] == b[0] && Below(a[1..], b[1..])))
  }

  lemma {:induction false} BelowIsTotal(a: Bytes, b: Bytes)
    ensures Below(a, b) || a == b || Below(b, a)
    ensures !(Below(a, b) && Below(b, a)) && !Below(a, a)
  {
    if a != [] && b != [] {
      BelowIsTotal(a[1..], b[1..]);
      BelowIsTotal(a[1..], a[1..]);
      assert a == [a[0]] + a[1..] && b == [b[0]] + b[1..];
    } else if a != [] {
      BelowIsTotal(a[1..], a[1..]);
    }
  }

  lemma {:induction false} BelowIsTransitive(a: Bytes, b: Bytes, c: Bytes)
    requires Below(a, b) && Below(b, c)
    ensures Below(a, c)
  {
    if a != [] && a[0] == b[0] && b[0] == c[0] {
      BelowIsTransitive(a[1..], b[1..], c[1..]);
    }
  }

  ghost predicate Ordered<T>(es: seq<Entry<T>>) {
    forall i, j :: 0 <= i < j < |es| ==> Below(es[i].path, es[j].path)
  }

  function Insert<T>(e: Entry<T>, es: seq<Entry<T>>): seq<Entry<T>> {
    if es == [] then [e]
    else if Below(es[0].path, e.path) then [es[0]] + Insert(e, es[1..])
    else [e] + es
  }

  /** `entries.sort(key=...)`. */
  function Sorted<T>(es: seq<Entry<T>>): seq<Entry<T>> {
    if es == [] then [] else Insert(es[0], Sorted(es[1..]))
  }

  lemma {:induction false} InsertIsPermutation<T>(e: Entry<T>, es: seq<Entry<T>>)
    ensures multiset(Insert(e, es)) == multiset(es) + multiset{e}
  {
    hide Below;
    if es != [] {
      InsertIsPermutation(e, es[1..]);
      assert es == [es[0]] + es[1..];
    }
  }

  lemma {:induction false} SortedIsPermutation<T>(es: seq<Entry<T>>)
    ensures multiset(Sorted(es)) == multiset(es)
  {
    hide Insert;
    if es != [] {
      SortedIsPermutation(es[1..]);
      InsertIsPermutation(es[0], Sorted(es[1..]));
      assert es == [es[0]] + es[1..];
    }
  }

  ghost predicate UniquePaths<T>(es: seq<Entry<T>>) {
    forall i, j :: 0 <= i < j < |es| ==> es[i].path != es[j].path
  }

  lemma InsertMembers<T>(e: Entry<T>, es: seq<Entry<T>>, x: Entry<T>)
    ensures x in Insert(e, es) <==> x in es || x == e
  {
    InsertIsPermutation(e, es);
    assert x in multiset(Insert(e, es)) <==> x in multiset(es) || x == e;
  }

  lemma SortedMembers<T>(es: seq<Entry<T>>, x: Entry<T>)
    ensures x in Sorted(es) <==> x in es
  {
    SortedIsPermutation(es);
    assert x in multiset(Sorted(es)) <==> x in multiset(es);
  }

  lemma {:induction false} InsertKeepsOrder<T>(e: Entry<T>, es: seq<Entry<T>>)
    requires Ordered(es) && forall x :: x in es ==> x.path != e.path
    ensures Ordered(Insert(e, es))
  {
    if es != [] {
      BelowIsTotal(es[0].path, e.path);
      if Below(es[0].path, e.path) {
        InsertKeepsOrder(e, es[1..]);
        var rest := Insert(e, es[1..]);
        forall x | x in rest ensures Below(es[0].path, x.path) {
          InsertMembers(e, es[1..], x);
        }
      } else {
        forall x | x in es ensures Below(e.path, x.path) {
          if x != es[0] {
            BelowIsTransitive(e.path, es[0].path, x.path);
          }
        }
      }
    }
  }

  lemma {:induction false} SortedIsOrdered<T>(es: seq<Entry<T>>)
    requires UniquePaths(es)
    ensures Ordered(Sorted(es))
  {
    if es != [] {
      SortedIsOrdered(es[1..]);
      forall x | x in Sorted(es[1..]) ensures x.path != es[0].path {
        SortedMembers(es[1..], x);
      }
      InsertKeepsOrder(es[0], Sorted(es[1..]));
    }
  }

  lemma HeadIsLeast<T>(a: seq<Entry<T>>, x: Entry<T>)
    requires Ordered(a) && x in a
    ensures x == a[0] || Below(a[0].path, x.path)
  {
  }

  lemma EmptyOrMember<T(!new)>(es: seq<T>)
    ensures es == [] || exists x :: x in es
  {
    if es != [] {
      assert es[0] in es;
    }
  }

  /** There is only one way to list the same entries in order, so any sorting gives this listing. */
  lemma {:induction false} OrderIsUnique<T(!new)>(a: seq<Entry<T>>, b: seq<Entry<T>>)
    requires Ordered(a) && Ordered(b) && forall x :: x in a <==> x in b
    ensures a == b
  {
    if a == [] {
      EmptyOrMember(b);
    } else {
      assert a[0] in b && (b[0] in a);
      HeadIsLeast(a, b[0]);
      HeadIsLeast(b, a[0]);
      BelowIsTotal(a[0].path, b[0].path);
      forall x ensures x in a[1..] <==> x in b[1..] {
        if x in a[1..] || x in b[1..] {
          BelowIsTotal(x.path, x.path);
          assert x != a[0];
          assert x in a <==> x in b;
        }
      }
      OrderIsUnique(a[1..], b[1..]);
      assert a == [a[0]] + a[1..] && b == [b[0]] + b[1..];
    }
  }

  // ----- the bytes -------------------------------------------------------------------------------

  /** Otherwise `int.to_bytes(8, "big")` raises OverflowError. */
  predicate FrameFits(e: Entry<Leaf>) {
    |e.path| < U64_LIMIT && e.what.length < U64_LIMIT
  }

  predicate Fits(es: seq<Entry<Leaf>>) {
    |es| < U64_LIMIT && forall i :: 0 <= i < |es| ==> FrameFits(es[i])
  }

  function Frame(e: Entry<Leaf>): Bytes {
    Big(|e.path|, 8) + e.path + FILE_MARK + Big(e.what.length, 8) + e.what.digest
  }

  function Frames(es: seq<Entry<Leaf>>): Bytes {
    if es == [] then [] else Frame(es[0]) + Frames(es[1..])
  }

  function TreeBytes(sorted: seq<Entry<Leaf>>): Bytes {
    DIRECTORY_SCHEME + Big(|sorted|, 8) + Frames(sorted)
  }

  /** What `_complete_directory_digest` feeds, for the files in the order in which they were found. */
  function DirectoryStream(found: seq<Entry<Leaf>>): Option<Bytes> {
    if Fits(Sorted(found)) then Some(TreeBytes(Sorted(found))) else None
  }

  /** What `_complete_file_digest` feeds. */
  function FileStream(content: Bytes): Option<Bytes> {
    if |content| < U64_LIMIT then Some(FILE_SCHEME + Big(|content|, 8) + content) else None
  }

  // ----- the decoder -----------------------------------------------------------------------------

  function DecodeFrame(b: Bytes): Option<(Entry<Leaf>, Bytes)> {
    if |b| < 8 then None
    else
      var n := BigValue(b[..8]);
      if |b| < n + 53 || b[n + 8..n + 13] != FILE_MARK then None
      else Some((Entry(b[8..n + 8], Leaf(BigValue(b[n + 13..n + 21]), b[n + 21..n + 53])), b[n + 53..]))
  }

  function DecodeFrames(b: Bytes, count: nat): Option<(seq<Entry<Leaf>>, Bytes)> {
    if count == 0 then Some(([], b))
    else
      match DecodeFrame(b)
      case None => None
      case Some((e, rest)) =>
        match DecodeFrames(rest, count - 1)
        case None => None
        case Some((es, after)) => Some(([e] + es, after))
  }

  function DecodeTree(b: Bytes): Option<(seq<Entry<Leaf>>, Bytes)> {
    var n := |DIRECTORY_SCHEME|;
    if |b| < n + 8 || b[..n] != DIRECTORY_SCHEME then None
    else DecodeFrames(b[n + 8..], BigValue(b[n..n + 8]))
  }

  /** The decoder inverts a frame whatever follows it. */
  lemma FrameRoundTrip(e: Entry<Leaf>, rest: Bytes)
    requires FrameFits(e)
    ensures DecodeFrame(Frame(e) + rest) == Some((e, rest))
  {
    hide Big, BigValue, Pow256;
    WidthLimits();
    BigRoundTrip(|e.path|, 8);
    BigRoundTrip(e.what.length, 8);
    var b, n := Frame(e) + rest, |e.path|;
    assert |FILE_MARK| == 5;
    assert b[..8] == Big(n, 8);
    assert b[8..n + 8] == e.path;
    assert b[n + 8..n + 13] == FILE_MARK;
    assert b[n + 13..n + 21] == Big(e.what.length, 8);
    assert b[n + 21..n + 53] == e.what.digest;
    assert b[n + 53..] == rest;
  }

  lemma {:induction false} FramesRoundTrip(es: seq<Entry<Leaf>>, rest: Bytes)
    requires Fits(es)
    ensures DecodeFrames(Frames(es) + rest, |es|) == Some((es, rest))
  {
    hide DecodeFrame, Frame;
    if es == [] {
      assert Frames(es) + rest == rest;
    } else {
      FrameRoundTrip(es[0], Frames(es[1..]) + rest);
      FramesRoundTrip(es[1..], rest);
      assert Frames(es) + rest == Frame(es[0]) + (Frames(es[1..]) + rest);
      assert [es[0]] + es[1..] == es;
    }
  }

  /** Decoding the bytes of a tree returns its listing and leaves exactly what follows. */
  lemma TreeRoundTrip(es: seq<Entry<Leaf>>, rest: Bytes)
    requires Fits(es)
    ensures DecodeTree(TreeBytes(es) + rest) == Some((es, rest))
  {
    hide Frames, DecodeFrames, Big, BigValue, Pow256;
    WidthLimits();
    BigRoundTrip(|es|, 8);
    FramesRoundTrip(es, rest);
    var b, n := TreeBytes(es) + rest, |DIRECTORY_SCHEME|;
    assert b[..n] == DIRECTORY_SCHEME;
    assert b[n..n + 8] == Big(|es|, 8);
    assert b[n + 8..] == Frames(es) + rest;
  }

  lemma DecodedFrameIsEncoded(b: Bytes)
    requires DecodeFrame(b).Some?
    ensures var (e, rest) := DecodeFrame(b).value; FrameFits(e) && b == Frame(e) + rest
  {
    hide Big, BigValue, Pow256;
    WidthLimits();
    var n := BigValue(b[..8]);
    BigOfValue(b[..8]);
    BigOfValue(b[n + 13..n + 21]);
    assert b == b[..8] + b[8..n + 8] + b[n + 8..n + 13] + b[n + 13..n + 21] + b[n + 21..n + 53] + b[n + 53..];
  }

  lemma {:induction false} DecodedFramesAreEncoded(b: Bytes, count: nat)
    requires DecodeFrames(b, count).Some? && count < U64_LIMIT
    ensures var (es, rest) := DecodeFrames(b, count).value; |es| == count && Fits(es) && b == Frames(es) + rest
    decreases count
  {
    hide DecodeFrame, Frame, FrameFits;
    if count == 0 {
      assert b == Frames([]) + b;
    } else {
      var (e, rest) := DecodeFrame(b).value;
      DecodedFrameIsEncoded(b);
      DecodedFramesAreEncoded(rest, count - 1);
      var (es, after) := DecodeFrames(rest, count - 1).value;
      assert ([e] + es)[1..] == es;
      assert Frame(e) + (Frames(es) + after) == Frames([e] + es) + after;
    }
  }

  /** And it decodes nothing else: whatever it accepts begins with the bytes of that listing. */
  lemma DecodedTreeIsEncoded(b: Bytes)
    requires DecodeTree(b).Some?
    ensures var (es, rest) := DecodeTree(b).value; Fits(es) && b == TreeBytes(es) + rest
  {
    hide Frames, DecodeFrames, Big, BigValue, Pow256;
    WidthLimits();
    var n := |DIRECTORY_SCHEME|;
    BigOfValue(b[n..n + 8]);
    DecodedFramesAreEncoded(b[n + 8..], BigValue(b[n..n + 8]));
    assert b == b[..n] + b[n..n + 8] + b[n + 8..];
  }

  /** A small number in eight bytes. */
  function Eight(n: byte): (b: Bytes)
    ensures |b| == 8
  {
    [0, 0, 0, 0, 0, 0, 0, n]
  }

  /** The bytes of a file with the content "hi". */
  lemma KnownFileStream()
    ensures FileStream(Ascii("hi")) == Some(Ascii("complete-file-v1") + [0] + Eight(2) + Ascii("hi"))
  {
    hide Big, Ascii, Eight;
    SmallBig(2);
  }

  /** The bytes of a directory with the one file `a`, of three bytes. */
  lemma KnownTreeBytes(digest: Digest)
    ensures TreeBytes([Entry(Ascii("a"), Leaf(3, digest))])
      == Ascii("complete-directory-manifest-v1") + [0] + Eight(1)
       + (Eight(1) + Ascii("a") + (Ascii("file") + [0]) + Eight(3) + digest)
  {
    hide Big, Ascii, Eight;
    SmallBig(1);
    SmallBig(3);
    var e := Entry(Ascii("a"), Leaf(3, digest));
    assert |e.path| == 1 && [e][1..] == [];
    assert Frames([e]) == Frame(e) + [];
  }

  lemma SmallBig(n: byte)
    ensures Big(n, 8) == Eight(n)
  {
    NothingBig();
  }

  lemma NothingBig()
    ensures Big(0, 7) == [0, 0, 0, 0, 0, 0, 0]
  {
    assert Big(0, 3) == [0, 0, 0];
  }

  /** A walk has a stream exactly if its count, the lengths of its paths, and the sizes of its files fit eight bytes. */
  lemma HasStreamIff(found: seq<Entry<Leaf>>)
    ensures DirectoryStream(found).Some? <==>
      |found| < U64_LIMIT && forall e :: e in found ==> |e.path| < U64_LIMIT && e.what.length < U64_LIMIT
  {
    SortedIsPermutation(found);
    assert |Sorted(found)| == |multiset(Sorted(found))| == |found|;
    forall e: Entry<Leaf> ensures e in found <==> e in Sorted(found) {
      SortedMembers(found, e);
    }
  }

  // ----- what the bytes determine ------------------------------------------------------------------

  /** `found` lists every file of the tree once, in some order. */
  ghost predicate Lists(found: seq<Entry<Leaf>>, tree: map<Bytes, Leaf>) {
    && UniquePaths(found)
    && forall e: Entry<Leaf> :: e in found <==> (e.path in tree && tree[e.path] == e.what)
  }

  lemma SortedLists(found: seq<Entry<Leaf>>, tree: map<Bytes, Leaf>)
    requires Lists(found, tree)
    ensures Ordered(Sorted(found))
    ensures forall e: Entry<Leaf> :: e in Sorted(found) <==> (e.path in tree && tree[e.path] == e.what)
  {
    SortedIsOrdered(found);
    forall e: Entry<Leaf> ensures e in Sorted(found) <==> e in found {
      SortedMembers(found, e);
    }
  }

  /** The hashed bytes do not depend on the order in which the directory walk found the files. */
  lemma EnumerationOrderIsIrrelevant(a: seq<Entry<Leaf>>, b: seq<Entry<Leaf>>, tree: map<Bytes, Leaf>)
    requires Lists(a, tree) && Lists(b, tree)
    ensures DirectoryStream(a) == DirectoryStream(b)
  {
    SortedLists(a, tree);
    SortedLists(b, tree);
    OrderIsUnique(Sorted(a), Sorted(b));
  }

  /** They determine the tree, even when other bytes follow them. */
  lemma DirectoryStreamIsInjective(
    a: seq<Entry<Leaf>>, t: map<Bytes, Leaf>, x: Bytes, b: seq<Entry<Leaf>>, u: map<Bytes, Leaf>, y: Bytes)
    requires Lists(a, t) && Lists(b, u)
    requires DirectoryStream(a).Some? && DirectoryStream(b).Some?
    ensures DirectoryStream(a).value + x == DirectoryStream(b).value + y <==> t == u && x == y
  {
    if DirectoryStream(a).value + x == DirectoryStream(b).value + y {
      TreeRoundTrip(Sorted(a), x);
      TreeRoundTrip(Sorted(b), y);
      SortedLists(a, t);
      SortedLists(b, u);
      forall p: Bytes ensures p in t ==> p in u && u[p] == t[p] {
        if p in t {
          assert Entry(p, t[p]) in Sorted(a);
        }
      }
      forall p: Bytes ensures p in u ==> p in t {
        if p in u {
          assert Entry(p, u[p]) in Sorted(b);
        }
      }
    }
    if t == u {
      EnumerationOrderIsIrrelevant(a, b, t);
    }
  }

  /** No tree is hashed like a file, whatever follows. */
  lemma TreeIsNeverAFile(found: seq<Entry<Leaf>>, x: Bytes, content: Bytes, y: Bytes)
    requires DirectoryStream(found).Some? && FileStream(content).Some?
    ensures DirectoryStream(found).value + x != FileStream(content).value + y
  {
    hide Frames, Big;
    assert (DirectoryStream(found).value + x)[9] == 'd' as int;
    assert (FileStream(content).value + y)[9] == 'f' as int;
  }

  lemma FileStreamIsInjective(a: Bytes, x: Bytes, b: Bytes, y: Bytes)
    requires FileStream(a).Some? && FileStream(b).Some?
    ensures FileStream(a).value + x == FileStream(b).value + y <==> a == b && x == y
  {
    hide Big, BigValue, Pow256;
    WidthLimits();
    BigRoundTrip(|a|, 8);
    BigRoundTrip(|b|, 8);
    var s, t, n := FileStream(a).value + x, FileStream(b).value + y, |FILE_SCHEME|;
    assert s[n..n + 8] == Big(|a|, 8) && t[n..n + 8] == Big(|b|, 8);
    assert s[n + 8..n + 8 + |a|] == a && t[n + 8..n + 8 + |b|] == b;
    assert s[n + 8 + |a|..] == x && t[n + 8 + |b|..] == y;
  }

  // ----- what two equal digests mean -----------------------------------------------------------------

  /** A file that the directory walk found, as the digest of the directory sees it. */
  function Summary(item: Entry<Bytes>, hash: Bytes -> Digest): Entry<Leaf> {
    Entry(item.path, Leaf(|item.what|, hash(item.what)))
  }

  function Summaries(items: seq<Entry<Bytes>>, hash: Bytes -> Digest): (r: seq<Entry<Leaf>>)
    ensures |r| == |items| && forall i :: 0 <= i < |r| ==> r[i] == Summary(items[i], hash)
  {
    if items == [] then [] else [Summary(items[0], hash)] + Summaries(items[1..], hash)
  }

  ghost function TreeOf<T>(es: seq<Entry<T>>): map<Bytes, T> {
    if es == [] then map[] else TreeOf(es[1..])[es[0].path := es[0].what]
  }

  lemma {:induction false} TreeOfLists<T>(es: seq<Entry<T>>, e: Entry<T>)
    requires UniquePaths(es)
    ensures e in es <==> (e.path in TreeOf(es) && TreeOf(es)[e.path] == e.what)
  {
    if es != [] {
      TreeOfLists(es[1..], e);
      if e.path == es[0].path {
        assert e in es <==> e == es[0];
      }
    }
  }

  ghost predicate Collide(hash: Bytes -> Digest, x: Bytes, y: Bytes) {
    x != y && hash(x) == hash(y)
  }

  /** The two contents of a path that both trees have. */
  ghost predicate CollideAt(hash: Bytes -> Digest, a: map<Bytes, Bytes>, b: map<Bytes, Bytes>, path: Bytes) {
    path in a && path in b && Collide(hash, a[path], b[path])
  }

  lemma SummariesList(items: seq<Entry<Bytes>>, hash: Bytes -> Digest)
    requires UniquePaths(items)
    ensures Lists(Summaries(items, hash), TreeOf(Summaries(items, hash)))
  {
    var es := Summaries(items, hash);
    forall e: Entry<Leaf> ensures e in es <==> (e.path in TreeOf(es) && TreeOf(es)[e.path] == e.what) {
      TreeOfLists(es, e);
    }
  }

  /**
   Two trees with one directory digest hold the same paths with the same contents, or the hash function
   collides on their two streams, or on the two contents of a path that both of them have.
  */
  lemma EqualDirectoryDigests(a: seq<Entry<Bytes>>, b: seq<Entry<Bytes>>, hash: Bytes -> Digest)
    requires UniquePaths(a) && UniquePaths(b)
    requires DirectoryStream(Summaries(a, hash)).Some? && DirectoryStream(Summaries(b, hash)).Some?
    requires hash(DirectoryStream(Summaries(a, hash)).value) == hash(DirectoryStream(Summaries(b, hash)).value)
    ensures
      || TreeOf(a) == TreeOf(b)
      || Collide(hash, DirectoryStream(Summaries(a, hash)).value, DirectoryStream(Summaries(b, hash)).value)
      || (TreeOf(a).Keys == TreeOf(b).Keys && exists path :: CollideAt(hash, TreeOf(a), TreeOf(b), path))
  {
    var s, t := Summaries(a, hash), Summaries(b, hash);
    var x, y := DirectoryStream(s).value, DirectoryStream(t).value;
    if x == y {
      SummariesList(a, hash);
      SummariesList(b, hash);
      assert x + [] == x && y + [] == y;
      DirectoryStreamIsInjective(s, TreeOf(s), [], t, TreeOf(t), []);
      PathsKeepTheirHash(a, b, hash);
      PathsKeepTheirHash(b, a, hash);
      assert TreeOf(a).Keys == TreeOf(b).Keys;
      if TreeOf(a) != TreeOf(b) {
        var path :| path in TreeOf(a) && TreeOf(a)[path] != TreeOf(b)[path];
        assert CollideAt(hash, TreeOf(a), TreeOf(b), path);
      }
    }
  }

  /** Likewise for two files, and for a file and a tree only the collision is left. */
  lemma EqualFileDigests(a: Bytes, b: Bytes, hash: Bytes -> Digest)
    requires FileStream(a).Some? && FileStream(b).Some?
    requires hash(FileStream(a).value) == hash(FileStream(b).value)
    ensures a == b || Collide(hash, FileStream(a).value, FileStream(b).value)
  {
    FileStreamIsInjective(a, [], b, []);
    assert forall s: Bytes :: s + [] == s;
  }

  lemma EqualFileAndDirectoryDigest(a: Bytes, found: seq<Entry<Leaf>>, hash: Bytes -> Digest)
    requires FileStream(a).Some? && DirectoryStream(found).Some?
    requires hash(FileStream(a).value) == hash(DirectoryStream(found).value)
    ensures Collide(hash, FileStream(a).value, DirectoryStream(found).value)
  {
    TreeIsNeverAFile(found, [], a, []);
    assert forall s: Bytes :: s + [] == s;
  }

  /** Trees with one summary have the same paths; contents that differ at a path collide. */
  lemma PathsKeepTheirHash(a: seq<Entry<Bytes>>, b: seq<Entry<Bytes>>, hash: Bytes -> Digest)
    requires UniquePaths(a) && UniquePaths(b)
    requires TreeOf(Summaries(a, hash)) == TreeOf(Summaries(b, hash))
    ensures forall path :: path in TreeOf(a) ==>
      && path in TreeOf(b)
      && (TreeOf(b)[path] == TreeOf(a)[path] || Collide(hash, TreeOf(a)[path], TreeOf(b)[path]))
  {
    var s, t := Summaries(a, hash), Summaries(b, hash);
    forall path | path in TreeOf(a)
      ensures path in TreeOf(b)
      ensures TreeOf(b)[path] == TreeOf(a)[path] || Collide(hash, TreeOf(a)[path], TreeOf(b)[path])
    {
      var e := Entry(path, TreeOf(a)[path]);
      TreeOfLists(a, e);
      var i :| 0 <= i < |a| && a[i] == e;
      assert s[i] == Summary(e, hash);
      TreeOfLists(s, Summary(e, hash));
      TreeOfLists(t, Summary(e, hash));
      var j :| 0 <= j < |t| && t[j] == Summary(e, hash);
      TreeOfLists(b, b[j]);
    }
  }
}
