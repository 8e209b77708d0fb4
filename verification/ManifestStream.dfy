/** The byte stream that a manifest hashes: for each path in order, the path, a NUL, the file's digest and a newline. */
module ManifestStream {
  import opened Wrappers

  datatype Entry = Entry(path: string, digest: HexDigest)

  /** File names on POSIX hold neither a NUL nor a slash. */
  predicate NoNul(path: string) {
    forall i :: 0 <= i < |path| ==> path[i] != '\0'
  }

  predicate NoNuls(entries: seq<Entry>) {
    forall i :: 0 <= i < |entries| ==> NoNul(entries[i].path)
  }

  function Line(e: Entry): string {
    e.path + ['\0'] + e.digest + ['\n']
  }

  function Stream(entries: seq<Entry>): string {
    if entries == [] then [] else Line(entries[0]) + Stream(entries[1..])
  }

  lemma {:induction false} StreamOfOneMore(entries: seq<Entry>, e: Entry)
    ensures Stream(entries + [e]) == Stream(entries) + Line(e)
  {
    if entries == [] {
      assert Stream([e]) == Line(e) + Stream([]);
    } else {
      assert (entries + [e])[1..] == entries[1..] + [e];
      StreamOfOneMore(entries[1..], e);
    }
  }

  lemma StreamLength(entries: seq<Entry>)
    ensures |Stream(entries)| == 0 <==> entries == []
  {
    if entries != [] {
      assert |Line(entries[0])| > 0;
    }
  }

  /** The first NUL of a line ends its path, and the rest of the line has a fixed length. */
  lemma SameFirstLine(a: Entry, aRest: string, b: Entry, bRest: string)
    requires NoNul(a.path) && NoNul(b.path)
    requires Line(a) + aRest == Line(b) + bRest
    ensures a == b && aRest == bRest
  {
    var s := Line(a) + aRest;
    var n, m := |a.path|, |b.path|;
    assert s[n] == '\0' && s[m] == '\0';
    assert forall i :: 0 <= i < n ==> s[i] == a.path[i];
    assert forall i :: 0 <= i < m ==> s[i] == b.path[i];
    assert n == m;
    assert a.path == s[..n] && b.path == s[..n];
    assert a.digest == s[n + 1..n + 65] && b.digest == s[n + 1..n + 65];
    assert aRest == s[n + 66..] && bRest == s[n + 66..];
  }

  /** The stream is uniquely decodable. */
  lemma {:induction false} StreamIsInjective(a: seq<Entry>, b: seq<Entry>)
    requires NoNuls(a) && NoNuls(b)
    requires Stream(a) == Stream(b)
    ensures a == b
  {
    if a == [] || b == [] {
      StreamLength(a);
      StreamLength(b);
    } else {
      SameFirstLine(a[0], Stream(a[1..]), b[0], Stream(b[1..]));
      StreamIsInjective(a[1..], b[1..]);
      assert a == [a[0]] + a[1..] && b == [b[0]] + b[1..];
    }
  }
}
