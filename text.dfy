/**
 * `String.prototype.split` with a non-empty separator, its inverse `join`,
 * and the conditions under which splitting a joined string gives the parts
 * back. The webhook writes its log with template literals and the log viewer
 * reads it back with `split("\n")` and `split(" - ")`; both rest on these.
 */
module Text {
  import opened Common

  /** `pat` occurs in `s` starting at index `i`. */
  predicate OccursAt(s: string, pat: string, i: nat)
  {
    i + |pat| <= |s| && s[i..i + |pat|] == pat
  }

  /** `s` contains no occurrence of `pat`. */
  predicate Free(s: string, pat: string)
  {
    forall i: nat | i <= |s| :: !OccursAt(s, pat, i)
  }

  /**
   * `p` can stand before the separator `sep`: in `p + sep` the first
   * occurrence of `sep` is the appended one (for " - ", `p` must neither
   * contain " - " nor end with " -").
   */
  predicate Delimits(p: string, sep: string)
  {
    forall i: nat | i < |p| :: !OccursAt(p + sep, sep, i)
  }

  /** The first index at or after `from` where `pat` occurs in `s`. */
  function FindFrom(s: string, pat: string, from: nat): (r: Option<nat>)
    requires pat != [] && from <= |s|
    ensures r.Some? ==> from <= r.value && OccursAt(s, pat, r.value)
    decreases |s| - from
  {
    if OccursAt(s, pat, from) then Some(from)
    else if from + |pat| >= |s| then None
    else FindFrom(s, pat, from + 1)
  }

  /** `parts.join(sep)`. */
  function Join(parts: seq<string>, sep: string): string
  {
    if |parts| == 0 then ""
    else if |parts| == 1 then parts[0]
    else parts[0] + sep + Join(parts[1..], sep)
  }

  /**
   * `s.split(sep)`: the pieces between successive leftmost occurrences of
   * `sep`. There is always at least one piece, and joining the pieces with
   * `sep` gives `s` back (`SplitPieces` states what the pieces look like).
   */
  function Split(s: string, sep: string): (parts: seq<string>)
    requires sep != []
    ensures |parts| >= 1
    decreases |s|
  {
    match FindFrom(s, sep, 0)
    case None => [s]
    case Some(i) =>
      [s[..i]] + Split(s[i + |sep|..], sep)
  }

  /** No piece of a split contains the separator, and every piece but the last can stand before it. */
  lemma {:induction false} SplitPieces(s: string, sep: string)
    requires sep != []
    ensures forall k | 0 <= k < |Split(s, sep)| :: Free(Split(s, sep)[k], sep)
    ensures forall k | 0 <= k < |Split(s, sep)| - 1 :: Delimits(Split(s, sep)[k], sep)
    decreases |s|
  {
    FindFromFirst(s, sep, 0);
    match FindFrom(s, sep, 0)
    case None =>
    case Some(i) =>
      PrefixBeforeFirst(s, sep, i);
      DelimitsFree(s[..i], sep);
      SplitPieces(s[i + |sep|..], sep);
  }

  /** The text before the first occurrence of `sep` can stand before `sep`. */
  lemma PrefixBeforeFirst(s: string, sep: string, i: nat)
    requires sep != [] && OccursAt(s, sep, i)
    requires forall j: nat | j < i :: !OccursAt(s, sep, j)
    ensures Delimits(s[..i], sep)
  {
    assert s[..i + |sep|] == s[..i] + sep;
    forall j: nat | j < i
      ensures !OccursAt(s[..i] + sep, sep, j)
    {
      assert !OccursAt(s, sep, j);
      assert (s[..i] + sep)[j..j + |sep|] == s[j..j + |sep|];
    }
  }

  /** A piece that can stand before the separator does not contain it. */
  lemma DelimitsFree(p: string, sep: string)
    requires sep != [] && Delimits(p, sep)
    ensures Free(p, sep)
  {
    forall i: nat | i <= |p|
      ensures !OccursAt(p, sep, i)
    {
      if i + |sep| <= |p| {
        assert !OccursAt(p + sep, sep, i);
        assert p[i..i + |sep|] == (p + sep)[i..i + |sep|];
      }
    }
  }

  /** `FindFrom` finds the first occurrence at or after `from`: there is none before the index it returns, or none at all. */
  lemma {:induction false} FindFromFirst(s: string, pat: string, from: nat)
    requires pat != [] && from <= |s|
    ensures forall i: nat | from <= i && (FindFrom(s, pat, from).None? || i < FindFrom(s, pat, from).value) ::
      !OccursAt(s, pat, i)
    decreases |s| - from
  {
    if !OccursAt(s, pat, from) && from + |pat| < |s| {
      FindFromFirst(s, pat, from + 1);
    }
  }

  /** `FindFrom` finds `k` when `pat` occurs at `k` and nowhere from `from` up to it. */
  lemma {:induction false} FirstOccurrence(s: string, pat: string, from: nat, k: nat)
    requires pat != [] && from <= k && OccursAt(s, pat, k)
    requires forall j: nat | from <= j < k :: !OccursAt(s, pat, j)
    ensures FindFrom(s, pat, from) == Some(k)
    decreases k - from
  {
    if from < k {
      FirstOccurrence(s, pat, from + 1, k);
    }
  }

  /** `FindFrom` finds nothing in a text free of `pat`. */
  lemma {:induction false} FindFromFree(s: string, pat: string, from: nat)
    requires pat != [] && from <= |s| && Free(s, pat)
    ensures FindFrom(s, pat, from).None?
    decreases |s| - from
  {
    assert !OccursAt(s, pat, from);
    if from + |pat| < |s| {
      FindFromFree(s, pat, from + 1);
    }
  }

  /**
   * Splitting a joined string gives the parts back, provided every part but
   * the last can stand before the separator and the last does not contain it.
   */
  lemma {:induction false} SplitJoin(parts: seq<string>, sep: string)
    requires sep != [] && |parts| >= 1
    requires forall k | 0 <= k < |parts| - 1 :: Delimits(parts[k], sep)
    requires Free(parts[|parts| - 1], sep)
    ensures Split(Join(parts, sep), sep) == parts
    decreases |parts|
  {
    if |parts| == 1 {
      FindFromFree(parts[0], sep, 0);
    } else {
      SplitFirst(parts[0], sep, Join(parts[1..], sep));
      SplitJoin(parts[1..], sep);
      assert parts == [parts[0]] + parts[1..];
    }
  }

  /** Text that can stand before `sep` is the first piece of itself, `sep` and any rest. */
  lemma SplitFirst(p: string, sep: string, rest: string)
    requires sep != [] && Delimits(p, sep)
    ensures Split(p + sep + rest, sep) == [p] + Split(rest, sep)
  {
    var s := p + sep + rest;
    assert OccursAt(s, sep, |p|) by {
      assert s[|p|..|p| + |sep|] == sep;
    }
    forall j: nat | j < |p|
      ensures !OccursAt(s, sep, j)
    {
      assert !OccursAt(p + sep, sep, j);
      assert s[..|p| + |sep|] == p + sep;
      assert s[j..j + |sep|] == (p + sep)[j..j + |sep|];
    }
    FirstOccurrence(s, sep, 0, |p|);
    assert s[..|p|] == p;
    assert s[|p| + |sep|..] == rest;
  }

  /**
   * The first piece of a split is a prefix of the text, and unless it is the
   * whole text the separator follows it.
   */
  lemma SplitHead(s: string, sep: string)
    requires sep != []
    ensures var h := Split(s, sep)[0];
            |h| <= |s| && h == s[..|h|] && (|h| < |s| ==> OccursAt(s, sep, |h|))
  {
    match FindFrom(s, sep, 0)
    case None =>
    case Some(i) =>
      assert Split(s, sep)[0] == s[..i];
  }

  /** Joining the pieces of a split gives the text back. */
  lemma {:induction false} JoinSplit(s: string, sep: string)
    requires sep != []
    ensures Join(Split(s, sep), sep) == s
    decreases |s|
  {
    match FindFrom(s, sep, 0)
    case None =>
    case Some(i) =>
      var head, tail := s[..i], s[i + |sep|..];
      var pieces := Split(tail, sep);
      assert Split(s, sep) == [head] + pieces;
      JoinSplit(tail, sep);
      JoinCons(head, pieces, sep);
      Reassemble(s, sep, i);
  }

  /** Cutting out an occurrence of `sep` at `i` and putting it back gives `s`. */
  lemma Reassemble(s: string, sep: string, i: nat)
    requires OccursAt(s, sep, i)
    ensures s == s[..i] + sep + s[i + |sep|..]
  {
    assert s[i..i + |sep|] == sep;
    assert s == s[..i] + s[i..i + |sep|] + s[i + |sep|..];
  }

  /** Joining a piece in front of at least one more puts the separator between them. */
  lemma JoinCons(p: string, rest: seq<string>, sep: string)
    requires |rest| >= 1
    ensures Join([p] + rest, sep) == p + sep + Join(rest, sep)
  {
    assert ([p] + rest)[1..] == rest;
  }

  /** Four parts joined: the separator between each two neighbours. */
  lemma Join4(a: string, b: string, c: string, d: string, sep: string)
    ensures Join([a, b, c, d], sep) == a + sep + b + sep + c + sep + d
  {
    var cd := c + sep + d;
    var bcd := b + sep + cd;
    JoinCons(c, [d], sep);
    assert [c, d] == [c] + [d];
    JoinCons(b, [c, d], sep);
    assert [b, c, d] == [b] + [c, d];
    JoinCons(a, [b, c, d], sep);
    assert [a, b, c, d] == [a] + [b, c, d];
    Associative(a + sep, b + sep, cd);
    Associative(a + sep + b + sep, c + sep, d);
    Associative(a + sep, b, sep);
    Associative(a + sep + b, sep, c);
    Associative(a + sep + b + sep + c, sep, d);
  }

  /** With a one-character separator, `pat` occurs at `i` exactly when `s[i]` is that character. */
  lemma OccursAtChar(s: string, c: char, i: nat)
    ensures OccursAt(s, [c], i) <==> i < |s| && s[i] == c
  {
    if i < |s| {
      assert s[i..i + 1] == [s[i]];
    }
  }

  /**
   * Splitting on a one-character separator distributes over that character:
   * the pieces of `x + [c] + y` are the pieces of `x` followed by those of `y`.
   */
  lemma {:induction false} SplitAtSeparator(x: string, c: char, y: string)
    ensures Split(x + [c] + y, [c]) == Split(x, [c]) + Split(y, [c])
    decreases |x|
  {
    if c !in x {
      SplitCons(x, c, y);
      SplitNone(x, c);
    } else {
      var i := FirstIndex(x, c);
      var head, tail := x[..i], x[i + 1..];
      assert x + [c] + y == head + [c] + (tail + [c] + y);
      assert x == head + [c] + tail;
      SplitAtSeparator(tail, c, y);
      SplitStep(head, c, tail, y);
    }
  }

  /** The inductive step of `SplitAtSeparator`: cutting off the part before the first `c`. */
  lemma SplitStep(head: string, c: char, tail: string, y: string)
    requires c !in head
    requires Split(tail + [c] + y, [c]) == Split(tail, [c]) + Split(y, [c])
    ensures Split(head + [c] + (tail + [c] + y), [c]) == Split(head + [c] + tail, [c]) + Split(y, [c])
  {
    var pieces, last := Split(tail, [c]), Split(y, [c]);
    SplitCons(head, c, tail + [c] + y);
    SplitCons(head, c, tail);
    Associative([head], pieces, last);
  }

  lemma Associative<T>(a: seq<T>, b: seq<T>, c: seq<T>)
    ensures a + (b + c) == (a + b) + c
  {
  }

  /** The index of the first `c` in `s`. */
  function FirstIndex(s: string, c: char): (i: nat)
    requires c in s
    ensures i < |s| && s[i] == c && c !in s[..i]
  {
    if s[0] == c then 0
    else
      var i := 1 + FirstIndex(s[1..], c);
      assert s[..i] == [s[0]] + s[1..][..i - 1];
      i
  }

  /** A text without `c` is its own single piece. */
  lemma SplitNone(s: string, c: char)
    requires c !in s
    ensures Split(s, [c]) == [s]
  {
    CharFree(s, c);
    SplitJoin([s], [c]);
  }

  /** A text cut at its first `c` splits into the part before it and the pieces of the rest. */
  lemma SplitCons(head: string, c: char, rest: string)
    requires c !in head
    ensures Split(head + [c] + rest, [c]) == [head] + Split(rest, [c])
  {
    CharDelimits(head, c);
    SplitFirst(head, [c], rest);
  }

  /** A string free of a one-character pattern does not contain that character. */
  lemma FreeOfChar(s: string, c: char)
    requires Free(s, [c])
    ensures c !in s
  {
    forall i | 0 <= i < |s|
      ensures s[i] != c
    {
      OccursAtChar(s, c, i);
    }
  }

  /** A string without a given character is free of it as a one-character pattern. */
  lemma CharFree(s: string, c: char)
    requires c !in s
    ensures Free(s, [c])
  {
    forall i: nat | i <= |s|
      ensures !OccursAt(s, [c], i)
    {
      OccursAtChar(s, c, i);
    }
  }

  /** A string without the character `c` can stand before the separator `[c]`. */
  lemma CharDelimits(s: string, c: char)
    requires c !in s
    ensures Delimits(s, [c])
  {
    forall i: nat | i < |s|
      ensures !OccursAt(s + [c], [c], i)
    {
      OccursAtChar(s + [c], c, i);
    }
  }
}
