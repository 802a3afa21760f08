/** String helpers with the semantics of the JavaScript string methods the source calls. */
module Text {
  import opened Wrappers

  /** `s.startsWith(p)` */
  predicate StartsWith(s: string, p: string)
  {
    |p| <= |s| && s[..|p|] == p
  }

  /** JavaScript truthiness of a nullable string: neither null nor "". */
  predicate Truthy(s: Option<string>)
  {
    s.Some? && s.value != ""
  }

  /** `a || b` on nullable strings whose right operand is a plain string. */
  function OrElse(a: Option<string>, b: string): (r: string)
    ensures Truthy(a) ==> r == a.value
    ensures !Truthy(a) ==> r == b
  {
    if Truthy(a) then a.value else b
  }

  /** `s.split(sep)` for a one-character separator: never empty, and no piece holds the separator. */
  function Split(s: string, sep: char): (parts: seq<string>)
    ensures |parts| >= 1
    ensures forall i :: 0 <= i < |parts| ==> sep !in parts[i]
  {
    if |s| == 0 then [""]
    else if s[0] == sep then [""] + Split(s[1..], sep)
    else
      var rest := Split(s[1..], sep);
      [[s[0]] + rest[0]] + rest[1..]
  }

  /** `parts.join(sep)` for a one-character separator. */
  function Join(parts: seq<string>, sep: char): string
    requires |parts| >= 1
  {
    if |parts| == 1 then parts[0] else parts[0] + [sep] + Join(parts[1..], sep)
  }

  /** Joining the pieces of a split gives the original string back. */
  lemma {:induction false} JoinSplit(s: string, sep: char)
    ensures Join(Split(s, sep), sep) == s
  {
    if |s| == 0 {
    } else if s[0] == sep {
      JoinSplit(s[1..], sep);
      assert Split(s, sep)[1..] == Split(s[1..], sep);
    } else {
      var rest := Split(s[1..], sep);
      JoinSplit(s[1..], sep);
      if |rest| == 1 {
        assert Split(s, sep) == [[s[0]] + rest[0]];
      } else {
        assert Split(s, sep)[1..] == rest[1..];
        assert Join(rest, sep) == rest[0] + [sep] + Join(rest[1..], sep);
        assert [s[0]] + s[1..] == s;
      }
    }
  }

  /** Splitting a join of separator-free pieces gives the pieces back: split and join are inverses. */
  lemma {:induction false} SplitJoin(parts: seq<string>, sep: char)
    requires |parts| >= 1
    requires forall i :: 0 <= i < |parts| ==> sep !in parts[i]
    ensures Split(Join(parts, sep), sep) == parts
  {
    if |parts| == 1 {
      SplitCount(parts[0], sep);
    } else {
      SplitJoin(parts[1..], sep);
      SplitPrefix(parts[0], Join(parts[1..], sep), sep);
    }
  }

  /** A split has a single piece exactly when the separator does not occur, and that piece is the whole string. */
  lemma {:induction false} SplitCount(s: string, sep: char)
    ensures sep !in s <==> |Split(s, sep)| == 1
    ensures |Split(s, sep)| == 1 ==> Split(s, sep)[0] == s
  {
    if |s| > 0 {
      SplitCount(s[1..], sep);
      assert [s[0]] + s[1..] == s;
      assert sep in s <==> s[0] == sep || sep in s[1..];
    }
  }

  /** A separator-free head followed by the separator becomes the first piece of the split. */
  lemma {:induction false} SplitPrefix(a: string, b: string, sep: char)
    requires sep !in a
    ensures Split(a + [sep] + b, sep) == [a] + Split(b, sep)
  {
    if |a| == 0 {
      assert a + [sep] + b == [sep] + b;
      assert ([sep] + b)[1..] == b;
    } else {
      var s := a + [sep] + b;
      assert s[0] == a[0];
      assert s[1..] == a[1..] + [sep] + b;
      SplitPrefix(a[1..], b, sep);
      assert [a[0]] + a[1..] == a;
    }
  }

  /** Whatever precedes the last separator, a separator-free tail is the last piece of the split. */
  lemma {:induction false} SplitPrefixAll(a: string, b: string, sep: char)
    requires sep !in b
    ensures Last(Split(a + [sep] + b, sep)) == b
  {
    if |a| == 0 {
      assert a + [sep] + b == [sep] + b;
      assert ([sep] + b)[1..] == b;
      SplitCount(b, sep);
    } else {
      var s := a + [sep] + b;
      assert s[1..] == a[1..] + [sep] + b;
      SplitPrefixAll(a[1..], b, sep);
      assert s[1..][|a| - 1] == sep;
      SplitCount(s[1..], sep);
    }
  }

  function Last<T>(xs: seq<T>): T
    requires |xs| >= 1
  {
    xs[|xs| - 1]
  }

  /** `s.split('/').pop()`: the text after the last '/' (the whole string when there is none). */
  function LastSegment(s: string): string
  {
    Last(Split(s, '/'))
  }

  /** The last segment is the longest '/'-free suffix of the string. */
  lemma {:induction false} LastSegmentIsFinalSuffix(s: string)
    ensures '/' !in LastSegment(s)
    ensures |LastSegment(s)| <= |s| && s[|s| - |LastSegment(s)|..] == LastSegment(s)
    ensures |LastSegment(s)| < |s| ==> s[|s| - |LastSegment(s)| - 1] == '/'
  {
    LastOfSplit(s, '/');
  }

  /** `r` is a separator-free suffix of `s`, preceded by the separator unless it is all of `s`. */
  predicate FinalPiece(s: string, sep: char, r: string)
  {
    && sep !in r
    && |r| <= |s| && s[|s| - |r|..] == r
    && (|r| < |s| ==> s[|s| - |r| - 1] == sep)
  }

  lemma {:induction false} LastOfSplit(s: string, sep: char)
    ensures FinalPiece(s, sep, Last(Split(s, sep)))
    decreases |s|
  {
    if |s| > 0 {
      var tail := s[1..];
      var rest := Split(tail, sep);
      SplitCount(tail, sep);
      if s[0] == sep || |rest| > 1 {
        LastOfSplit(tail, sep);
        LastOfSplitStep(s, sep);
      } else {
        assert Split(s, sep) == [[s[0]] + rest[0]];
        assert [s[0]] + tail == s;
      }
    }
  }

  /** When the head is a separator or the tail splits further, the last piece is the tail's last piece. */
  lemma LastOfSplitStep(s: string, sep: char)
    requires |s| > 0 && (s[0] == sep || |Split(s[1..], sep)| > 1)
    requires FinalPiece(s[1..], sep, Last(Split(s[1..], sep)))
    ensures FinalPiece(s, sep, Last(Split(s, sep)))
  {
    var rest := Split(s[1..], sep);
    var r := Last(rest);
    if s[0] == sep {
      assert Split(s, sep) == [""] + rest;
    } else {
      assert Split(s, sep) == [[s[0]] + rest[0]] + rest[1..];
      SplitCount(s[1..], sep);
    }
    assert Last(Split(s, sep)) == r;
    SuffixOfTail(s, r);
  }

  /** A suffix of a sequence's tail is a suffix of the sequence, and the element before it is the same one. */
  lemma SuffixOfTail<T>(s: seq<T>, r: seq<T>)
    requires |s| > 0 && |r| <= |s| - 1 && s[1..][|s| - 1 - |r|..] == r
    ensures s[|s| - |r|..] == r
    ensures |r| < |s| - 1 ==> s[|s| - |r| - 1] == s[1..][|s| - 1 - |r| - 1]
    ensures |r| == |s| - 1 ==> s[|s| - |r| - 1] == s[0]
  {
  }

  /** A string that ends in '/' followed by a '/'-free tail has that tail as its last segment. */
  lemma LastSegmentOfSuffix(prefix: string, tail: string)
    requires '/' !in tail
    ensures LastSegment(prefix + ['/'] + tail) == tail
  {
    SplitPrefixAll(prefix, tail, '/');
  }

  /** `if (s.length > n) s = s.substring(0, n)`. */
  function Truncate(s: string, n: nat): (r: string)
    ensures |r| <= n && |r| <= |s|
    ensures r == s[..|r|]
    ensures |s| <= n ==> r == s
    ensures |s| > n ==> |r| == n
  {
    if |s| > n then s[..n] else s
  }

  /** The concatenation of a sequence of strings, in order. */
  function Flatten(pieces: seq<string>): string
  {
    if |pieces| == 0 then "" else pieces[0] + Flatten(pieces[1..])
  }

  /** Flattening distributes over sequence concatenation. */
  lemma {:induction false} FlattenAppend(a: seq<string>, b: seq<string>)
    ensures Flatten(a + b) == Flatten(a) + Flatten(b)
  {
    if |a| > 0 {
      assert (a + b)[1..] == a[1..] + b;
      FlattenAppend(a[1..], b);
    } else {
      assert a + b == b;
    }
  }
}
