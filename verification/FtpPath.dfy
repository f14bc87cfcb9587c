/** Path joining and trimming, in place in a bounded buffer of NUL-terminated text. */
module FtpPath {
  import opened CString
  import opened Wrappers

  datatype Code = Success | InvalidArgument | NameTooLong

  // Pure joining.

  predicate Leading(p: string) {
    p != "" && p[0] == '/'
  }

  predicate Trailing(p: string) {
    p != "" && p[|p| - 1] == '/'
  }

  /** Two paths with exactly one slash where they meet; the empty path is neutral. */
  function Join(p: string, q: string): string {
    if p == "" then q
    else if q == "" then p
    else if Trailing(p) && Leading(q) then p + q[1..]
    else if Trailing(p) || Leading(q) then p + q
    else p + "/" + q
  }

  /** Drops trailing slashes, but never the first character. */
  function Trim(p: string): (r: string)
    ensures |r| <= |p| && r == p[..|r|]
  {
    if |p| > 1 && Trailing(p) then Trim(p[..|p| - 1]) else p
  }

  function Resolve(base: string, cwd: string, path: string): string {
    Trim(Join(if Leading(path) then base else cwd, path))
  }

  /** Joining leaves exactly one of the slashes that meet, or puts one. */
  lemma JoinIs(p: string, q: string)
    requires p != "" && q != ""
    ensures Join(p, q) ==
            (if Trailing(p) then p[..|p| - 1] else p) + "/" + (if Leading(q) then q[1..] else q)
  {
    if Trailing(p) {
      assert p == p[..|p| - 1] + "/";
    }
    if Leading(q) {
      assert q == "/" + q[1..];
    }
  }

  lemma JoinIdentity(p: string)
    ensures Join("", p) == p && Join(p, "") == p
  {
  }

  lemma JoinEnds(p: string, q: string)
    requires p != "" && q != ""
    ensures Join(p, q) != "" && Join(p, q)[0] == p[0]
    ensures Trailing(Join(p, q)) <==> Trailing(q)
    ensures Leading(Join(p, q)) <==> Leading(p)
  {
  }

  /** What joining appends to a non-empty path; it depends on that path only through its last
      character. */
  function Appended(slash: bool, q: string): string {
    if q == "" then ""
    else if slash && Leading(q) then q[1..]
    else if slash || Leading(q) then q
    else "/" + q
  }

  lemma JoinAppends(p: string, q: string)
    requires p != ""
    ensures Join(p, q) == p + Appended(Trailing(p), q)
  {
  }

  lemma AppendedMore(slash: bool, q: string, x: string)
    requires q != ""
    ensures Appended(slash, q + x) == Appended(slash, q) + x
  {
    assert (q + x)[1..] == q[1..] + x;
    assert ("/" + q) + x == "/" + (q + x);
  }

  lemma JoinAssociative(p: string, q: string, r: string)
    ensures Join(Join(p, q), r) == Join(p, Join(q, r))
  {
    hide Join, Appended, Trailing, Leading;
    if p == "" {
      JoinIdentity(q);
      JoinIdentity(Join(q, r));
    } else if q == "" {
      JoinIdentity(p);
      JoinIdentity(r);
    } else if r == "" {
      JoinIdentity(q);
      JoinIdentity(Join(p, q));
    } else {
      JoinAssociativeNonEmpty(p, q, r, Appended(Trailing(p), q), Appended(Trailing(q), r));
    }
  }

  lemma JoinAssociativeNonEmpty(p: string, q: string, r: string, x: string, y: string)
    requires p != "" && q != "" && r != "" && x == Appended(Trailing(p), q) && y == Appended(Trailing(q), r)
    ensures Join(Join(p, q), r) == Join(p, Join(q, r))
  {
    hide Join, Appended, Trailing, Leading;
    JoinEnds(p, q);
    JoinAppends(p, q);
    JoinAppends(Join(p, q), r);
    assert Join(Join(p, q), r) == (p + x) + y;
    JoinAppends(q, r);
    AppendedMore(Trailing(p), q, y);
    JoinAppends(p, q + y);
    assert Join(p, Join(q, r)) == p + (x + y);
    Regroup(p, x, y);
  }

  lemma Regroup(x: string, y: string, z: string)
    ensures (x + y) + z == x + (y + z)
  {
  }

  lemma JoinAt(p: string, q: string, start: nat, offset: nat, j: nat)
    requires p != "" && q != "" && j < |Join(p, q)|
    requires start == if Trailing(p) && Leading(q) then 1 else 0
    requires offset == if Trailing(p) || Leading(q) then |p| else |p| + 1
    ensures |Join(p, q)| == offset + |q| - start
    ensures Join(p, q)[j] == if j < |p| then p[j] else if j < offset then '/' else q[start + (j - offset)]
  {
  }

  lemma {:induction false} TrimEnds(p: string)
    ensures |Trim(p)| > 1 ==> !Trailing(Trim(p))
    ensures Leading(Trim(p)) <==> Leading(p)
  {
    if |p| > 1 && Trailing(p) {
      TrimEnds(p[..|p| - 1]);
    }
  }

  /** Trimming drops slashes only, all of them but a first character. */
  lemma {:induction false} TrimIs(p: string, n: nat)
    requires n <= |p| && (forall i | n <= i < |p| :: p[i] == '/') && (n <= 1 || p[n - 1] != '/')
    ensures Trim(p) == p[..if n > 1 || p == "" then n else 1]
  {
    if |p| > 1 && Trailing(p) {
      var q := p[..|p| - 1];
      if n < |p| {
        TrimIs(q, n);
      }
    }
  }

  lemma TrimIdempotent(p: string)
    ensures Trim(Trim(p)) == Trim(p)
  {
  }

  /** Resolving a resolved path changes nothing, for every path, exactly when the base directory is
      empty or the root (with an absolute working directory). */
  lemma ResolveIdempotent(base: string, cwd: string)
    requires Leading(cwd)
    ensures base in {"", "/"} <==>
            forall path :: Resolve(base, cwd, Resolve(base, cwd, path)) == Resolve(base, cwd, path)
  {
    if base in {"", "/"} {
      forall path
        ensures Resolve(base, cwd, Resolve(base, cwd, path)) == Resolve(base, cwd, path)
      {
        ResolveTwice(base, cwd, path);
      }
    } else {
      NotIdempotent(base, cwd);
      assert Resolve(base, cwd, Resolve(base, cwd, "/x")) != Resolve(base, cwd, "/x");
    }
  }

  lemma ResolveTwice(base: string, cwd: string, path: string)
    requires Leading(cwd) && base in {"", "/"}
    ensures Resolve(base, cwd, Resolve(base, cwd, path)) == Resolve(base, cwd, path)
  {
    var prefix := if Leading(path) then base else cwd;
    var joined := Join(prefix, path);
    assert Leading(joined);
    TrimEnds(joined);
    var r := Trim(joined);
    assert Join(base, r) == r;
    TrimIdempotent(joined);
  }

  lemma NotIdempotent(base: string, cwd: string)
    requires Leading(cwd) && base !in {"", "/"}
    ensures Resolve(base, cwd, Resolve(base, cwd, "/x")) != Resolve(base, cwd, "/x")
  {
    assert |base| == 1 && base[0] == '/' ==> base == "/";
    var once := Join(base, "/x");
    assert once[|once| - 1] == 'x' && once[0] == base[0];
    assert Trim(once) == once;
    var prefix := if Leading(once) then base else cwd;
    var twice := Join(prefix, once);
    assert twice[|twice| - 1] == 'x';
    assert Trim(twice) == twice && |twice| > |once|;
  }

  // In place.

  method TrimTrailingSlash(path: array<char>)
    requires Terminated(path[..])
    modifies path
    ensures Terminated(path[..]) && Text(path[..]) == Trim(old(Text(path[..])))
    ensures forall j | |old(Text(path[..]))| < j < path.Length :: path[j] == old(path[j])
  {
    ghost var text := Text(path[..]);
    var n := StringLength(path);
    if n == 0 {
      return;
    }
    var i := n - 1;
    while i > 0 && path[i] == '/'
      invariant 0 <= i < n == |text|
      invariant path[..i + 1] == text[..i + 1] && path[i + 1] == NUL
      invariant Trim(text[..i + 1]) == Trim(text)
      invariant forall j | n < j < path.Length :: path[j] == old(path[j])
    {
      assert text[..i + 1][..i] == text[..i];
      path[i] := NUL;
      i := i - 1;
    }
    assert text[..n] == text;
    assert forall j | 0 <= j <= i :: path[j] == path[..i + 1][j] == text[j];
    TextIs(path[..], i + 1);
  }

  /** memmove: the source is read as it was before any byte was written. */
  method MemMove(buf: array<char>, dst: nat, src: nat, count: nat)
    requires dst + count <= buf.Length && src + count <= buf.Length
    modifies buf
    ensures forall j | 0 <= j < buf.Length ::
              buf[j] == if dst <= j < dst + count then old(buf[src + (j - dst)]) else old(buf[j])
  {
    forall j | dst <= j < dst + count {
      buf[j] := buf[src + (j - dst)];
    }
  }

  method MemCopy(buf: array<char>, text: string, count: nat)
    requires count <= buf.Length && count <= |text|
    modifies buf
    ensures forall j | 0 <= j < buf.Length :: buf[j] == if j < count then text[j] else old(buf[j])
  {
    forall j | 0 <= j < count {
      buf[j] := text[j];
    }
  }

  /** Puts a non-empty prefix in front of non-empty text. */
  method Insert(pre: string, path: array<char>, textLen: nat) returns (ret: Code)
    requires pre != "" && NUL !in pre && Terminated(path[..]) && textLen == StrLen(path[..]) > 0
    modifies path
    ensures ret == Success || ret == NameTooLong
    ensures ret == NameTooLong ==> |Join(pre, old(Text(path[..])))| + 1 > path.Length && path[..] == old(path[..])
    ensures ret == Success ==> Terminated(path[..]) && Text(path[..]) == Join(pre, old(Text(path[..])))
  {
    hide Join;
    ghost var text := Text(path[..]);
    var prefixLen, pathLen := |pre|, textLen;
    var prefixTrailingSlash := pre[prefixLen - 1] == '/';
    var pathLeadingSlash := path[0] == '/';
    var start := 0;
    var slashIndex, pathOffset;
    if prefixTrailingSlash && pathLeadingSlash {
      start := 1;
      pathLen := pathLen - 1;
      slashIndex := prefixLen - 1;
      pathOffset := prefixLen;
    } else if prefixTrailingSlash {
      slashIndex := prefixLen - 1;
      pathOffset := prefixLen;
    } else if pathLeadingSlash {
      slashIndex := prefixLen;
      pathOffset := prefixLen;
    } else {
      slashIndex := prefixLen;
      pathOffset := prefixLen + 1;
    }
    ghost var joined := Join(pre, text);
    JoinEnds(pre, text);
    JoinAt(pre, text, start, pathOffset, 0);
    assert |joined| == pathOffset + pathLen;

    if pathOffset + pathLen + 1 > path.Length {
      return NameTooLong;
    }

    MemMove(path, pathOffset, start, pathLen + 1);
    MemCopy(path, pre, prefixLen);
    path[slashIndex] := '/';
    forall j | 0 <= j < |joined|
      ensures path[j] == joined[j] != NUL
    {
      JoinAt(pre, text, start, pathOffset, j);
    }
    assert path[..|joined|] == joined;
    TextIs(path[..], |joined|);
    return Success;
  }

  method Prefix(prefix: Option<string>, path: array?<char>) returns (ret: Code)
    requires prefix.Some? ==> NUL !in prefix.value
    requires path != null && path.Length > 0 ==> Terminated(path[..])
    modifies path
    ensures ret == InvalidArgument <==> prefix == None || path == null || path.Length == 0
    ensures ret == NameTooLong ==> |Join(prefix.value, old(Text(path[..])))| + 1 > path.Length
    ensures ret != Success && path != null ==> path[..] == old(path[..])
    ensures ret == Success ==> Terminated(path[..]) && Text(path[..]) == Join(prefix.value, old(Text(path[..])))
  {
    if prefix == None || path == null || path.Length == 0 {
      return InvalidArgument;
    }
    var pre := prefix.value;
    ghost var text := Text(path[..]);
    var prefixLen := |pre|;
    var pathLen := StringLength(path);
    if prefixLen == 0 {
      return Success;
    } else if pathLen == 0 {
      if prefixLen + 1 > path.Length {
        return NameTooLong;
      }
      MemCopy(path, pre + [NUL], prefixLen + 1);
      assert path[..prefixLen] == pre;
      TextIs(path[..], prefixLen);
      return Success;
    }

    hide Join;
    ret := Insert(pre, path, pathLen);
  }

  method ResolvePath(base: Option<string>, cwd: Option<string>, path: array?<char>) returns (ret: Code)
    requires base.Some? ==> NUL !in base.value
    requires cwd.Some? ==> NUL !in cwd.value
    requires path != null && path.Length > 0 ==> Terminated(path[..])
    modifies path
    ensures ret == InvalidArgument <==> base == None || cwd == None || path == null || path.Length == 0
    ensures ret != Success && path != null ==> path[..] == old(path[..])
    ensures ret == NameTooLong ==>
              var text := old(Text(path[..]));
              |Join(if Leading(text) then base.value else cwd.value, text)| + 1 > path.Length
    ensures ret == Success ==>
              Terminated(path[..]) && Text(path[..]) == Resolve(base.value, cwd.value, old(Text(path[..])))
  {
    if base == None || cwd == None || path == null || path.Length == 0 {
      return InvalidArgument;
    }
    var prefix := if path[0] == '/' then base else cwd;
    ret := Prefix(prefix, path);
    if ret != Success {
      return;
    }
    TrimTrailingSlash(path);
  }
}
