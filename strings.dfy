/**
 * The JavaScript string operations the chatbot command relies on, over `string`:
 * `trim`, `toLowerCase`,
 * `includes`/`indexOf`, `split` by a string separator, `join`, and a global
 * replace of a literal pattern.
 *
 * JavaScript strings are sequences of UTF-16 code units; a Dafny `char` is a
 * Unicode scalar value, so a character outside the Basic Multilingual Plane is
 * one `char` here rather than two units, and a lone surrogate cannot occur.
 * Every pattern the chatbot searches for is ASCII, so no behaviour modelled
 * here depends on the difference.
 */
module Strings {
  import opened Wrappers

  /** WhiteSpace and LineTerminator code points, the characters `String.prototype.trim` removes. */
  predicate IsSpace(c: char) {
    || c == ' '
    || ('\t' <= c <= '\r')
    || c == '\U{00A0}' || c == '\U{1680}'
    || ('\U{2000}' <= c <= '\U{200A}')
    || c == '\U{2028}' || c == '\U{2029}' || c == '\U{202F}' || c == '\U{205F}'
    || c == '\U{3000}' || c == '\U{FEFF}'
  }

  /** Number of whitespace characters at the start of `s`. */
  function LeadingSpaces(s: string): (n: nat)
    ensures n <= |s|
    ensures forall i :: 0 <= i < n ==> IsSpace(s[i])
    ensures n < |s| ==> !IsSpace(s[n])
  {
    if s != [] && IsSpace(s[0]) then 1 + LeadingSpaces(s[1..]) else 0
  }

  /** Number of whitespace characters at the end of `s`. */
  function TrailingSpaces(s: string): (n: nat)
    ensures n <= |s|
    ensures forall i :: |s| - n <= i < |s| ==> IsSpace(s[i])
    ensures n < |s| ==> !IsSpace(s[|s| - 1 - n])
  {
    if s != [] && IsSpace(s[|s| - 1]) then 1 + TrailingSpaces(s[..|s| - 1]) else 0
  }

  /** `s.trim()`: the slice of `s` left once whitespace is removed from both ends. */
  function Trim(s: string): (r: string)
    ensures LeadingSpaces(s) + |r| <= |s|
    ensures r == s[LeadingSpaces(s)..LeadingSpaces(s) + |r|]
    ensures forall i :: LeadingSpaces(s) + |r| <= i < |s| ==> IsSpace(s[i])
    ensures r != [] ==> !IsSpace(r[0]) && !IsSpace(r[|r| - 1])
  {
    var t := s[LeadingSpaces(s)..];
    t[..|t| - TrailingSpaces(t)]
  }

  /** Trimming twice is trimming once. */
  lemma TrimIdempotent(s: string)
    ensures Trim(Trim(s)) == Trim(s)
  {
    var r := Trim(s);
    if r != [] {
      assert LeadingSpaces(r) == 0;
      assert TrailingSpaces(r) == 0;
    }
  }

  /** `toLowerCase` on the ASCII letters; every other character is kept. */
  function LowerChar(c: char): char {
    if 'A' <= c <= 'Z' then (c as int - 'A' as int + 'a' as int) as char else c
  }

  function ToLower(s: string): (r: string)
    ensures |r| == |s|
    ensures forall i :: 0 <= i < |s| ==> r[i] == LowerChar(s[i])
  {
    seq(|s|, i requires 0 <= i < |s| => LowerChar(s[i]))
  }

  /** Lower-casing keeps every occurrence, lower-cased. */
  lemma LowerOccurs(s: string, q: string, i: nat)
    requires OccursAt(s, q, i)
    ensures OccursAt(ToLower(s), ToLower(q), i)
  {
    assert ToLower(s)[i..i + |q|] == ToLower(q);
  }

  predicate IsPrefix(p: string, s: string) {
    |p| <= |s| && s[..|p|] == p
  }

  /** `s.endsWith(suffix)` */
  predicate EndsWith(s: string, suffix: string)
    ensures EndsWith(s, suffix) <==> exists x: string :: s == x + suffix
  {
    TakeDrop(s, |s| - |suffix|);
    |suffix| <= |s| && s[|s| - |suffix|..] == suffix
  }

  /** `p` occurs in `s` starting at index `i`. */
  predicate OccursAt(s: string, p: string, i: nat) {
    i + |p| <= |s| && s[i..i + |p|] == p
  }

  /** `s.indexOf(p, from)`: the first occurrence of `p` at or after `from`. */
  function IndexOfFrom(s: string, p: string, from: nat): (r: Option<nat>)
    decreases |s| + 1 - from
    ensures r.Some? ==> from <= r.value && OccursAt(s, p, r.value)
  {
    if from + |p| > |s| then None
    else if s[from..from + |p|] == p then Some(from)
    else IndexOfFrom(s, p, from + 1)
  }

  /** The position found is the first occurrence at or after `from`; None means there is none. */
  lemma {:induction false} IndexOfFromFirst(s: string, p: string, from: nat)
    decreases |s| + 1 - from
    ensures IndexOfFrom(s, p, from).Some? ==>
      forall j :: from <= j < IndexOfFrom(s, p, from).value ==> !OccursAt(s, p, j)
    ensures IndexOfFrom(s, p, from).None? ==> forall j :: from <= j ==> !OccursAt(s, p, j)
  {
    if from + |p| <= |s| && s[from..from + |p|] != p {
      IndexOfFromFirst(s, p, from + 1);
    }
  }

  function IndexOf(s: string, p: string): Option<nat> {
    IndexOfFrom(s, p, 0)
  }

  /** A string is its first `k` characters followed by the rest. */
  lemma TakeDrop(s: string, k: int)
    ensures 0 <= k <= |s| ==> s == s[..k] + s[k..]
  {
  }

  /** `s.includes(p)` */
  function Contains(s: string, p: string): (b: bool)
    ensures b <==> exists i: nat :: OccursAt(s, p, i)
  {
    IndexOfFromFirst(s, p, 0);
    IndexOf(s, p).Some?
  }

  /** A one-character pattern occurs exactly when the character is in the string. */
  lemma ContainsChar(s: string, c: char)
    ensures Contains(s, [c]) <==> c in s
  {
    if c in s {
      var i :| 0 <= i < |s| && s[i] == c;
      assert OccursAt(s, [c], i);
    }
    if Contains(s, [c]) {
      var i: nat :| OccursAt(s, [c], i);
      assert s[i] == s[i..i + 1][0];
    }
  }

  /** `s.split(/[...]/)[0]` for a character class: the longest prefix free of `stops`. */
  function PrefixBefore(s: string, stops: set<char>): (r: string)
    ensures IsPrefix(r, s)
    ensures forall i :: 0 <= i < |r| ==> r[i] !in stops
    ensures |r| < |s| ==> s[|r|] in stops
  {
    if s == [] || s[0] in stops then [] else [s[0]] + PrefixBefore(s[1..], stops)
  }

  /** A pattern holding a character the string lacks does not occur in it. */
  lemma AbsentChar(s: string, p: string, c: char)
    requires c in p && c !in s
    ensures !Contains(s, p)
  {
  }

  /** An occurrence inside a prefix of `s` is an occurrence in `s`. */
  lemma PrefixOccurrences(s: string, p: string, n: nat)
    requires n <= |s|
    ensures forall j: nat :: OccursAt(s[..n], p, j) ==> j + |p| <= n && OccursAt(s, p, j)
  {
    forall j: nat | OccursAt(s[..n], p, j)
      ensures j + |p| <= n && OccursAt(s, p, j)
    {
      assert s[..n][j..j + |p|] == s[j..j + |p|];
    }
  }

  /** Occurrences in `s[k..]` are the occurrences in `s` shifted by `k`. */
  lemma SuffixOccurrences(s: string, p: string, k: nat)
    requires k <= |s|
    ensures forall j: nat :: OccursAt(s[k..], p, j) <==> OccursAt(s, p, j + k)
  {
    forall j: nat
      ensures OccursAt(s[k..], p, j) <==> OccursAt(s, p, j + k)
    {
      if j + k + |p| <= |s| {
        assert s[k..][j..j + |p|] == s[j + k..j + k + |p|];
      }
    }
  }

  /**
   * `s.split(sep)` for a non-empty string separator: the pieces between the
   * successive non-overlapping occurrences of `sep`, scanning left to right.
   */
  function Split(s: string, sep: string): (parts: seq<string>)
    requires sep != []
    decreases |s|
    ensures 1 <= |parts|
  {
    match IndexOf(s, sep)
    case None => [s]
    case Some(i) => [s[..i]] + Split(s[i + |sep|..], sep)
  }

  /** One step of the split: the piece before the first occurrence, then the split of the rest. */
  lemma SplitStep(s: string, sep: string, i: nat)
    requires sep != [] && IndexOf(s, sep) == Some(i)
    ensures i + |sep| <= |s|
    ensures Split(s, sep) == [s[..i]] + Split(s[i + |sep|..], sep)
  {
  }

  /**
   * The first piece is the prefix before the first occurrence of `sep`, and it
   * holds no occurrence; there is a second piece exactly when `sep` occurs.
   */
  lemma SplitHead(s: string, sep: string)
    requires sep != []
    ensures IsPrefix(Split(s, sep)[0], s)
    ensures !Contains(Split(s, sep)[0], sep)
    ensures |Split(s, sep)| == 1 <==> !Contains(s, sep)
    ensures |Split(s, sep)| == 1 ==> Split(s, sep)[0] == s
    ensures 1 < |Split(s, sep)| ==> OccursAt(s, sep, |Split(s, sep)[0]|)
  {
    match IndexOf(s, sep)
    case None =>
    case Some(i) =>
      SplitStep(s, sep, i);
      IndexOfFromFirst(s, sep, 0);
      PrefixOccurrences(s, sep, i);
  }

  /**
   * `s.split(sep)[1]` when `sep` occurs: the text from the end of the first
   * occurrence up to the next occurrence, or to the end of `s` when there is none.
   */
  lemma SecondPiece(s: string, sep: string)
    requires sep != [] && Contains(s, sep)
    ensures |Split(s, sep)| >= 2
    ensures var start := IndexOf(s, sep).value + |sep|;
      var piece := Split(s, sep)[1];
      && start <= |s|
      && IsPrefix(piece, s[start..])
      && !Contains(piece, sep)
      && (start + |piece| == |s| || OccursAt(s, sep, start + |piece|))
  {
    var i := IndexOf(s, sep).value;
    var start := i + |sep|;
    var rest := s[start..];
    SplitStep(s, sep, i);
    assert Split(s, sep)[1] == Split(rest, sep)[0];
    SplitHead(rest, sep);
    var piece := Split(rest, sep)[0];
    if 1 < |Split(rest, sep)| {
      OccursInSuffix(s, sep, start, |piece|);
    }
  }

  /** An occurrence in a suffix is an occurrence in the whole, shifted by where the suffix starts. */
  lemma OccursInSuffix(s: string, p: string, k: nat, j: nat)
    requires k <= |s| && OccursAt(s[k..], p, j)
    ensures OccursAt(s, p, k + j)
  {
    assert s[k + j..k + j + |p|] == s[k..][j..j + |p|];
  }

  /** No piece of a split contains the separator. */
  lemma {:induction false} SplitPiecesFree(s: string, sep: string)
    requires sep != []
    ensures forall k :: 0 <= k < |Split(s, sep)| ==> !Contains(Split(s, sep)[k], sep)
    decreases |s|
  {
    SplitHead(s, sep);
    match IndexOf(s, sep)
    case None =>
    case Some(i) =>
      SplitStep(s, sep, i);
      SplitPiecesFree(s[i + |sep|..], sep);
  }

  /** `parts.join(sep)` */
  function Join(parts: seq<string>, sep: string): (r: string)
    ensures |parts| >= 1 ==> IsPrefix(parts[0], r)
  {
    if |parts| == 0 then ""
    else if |parts| == 1 then parts[0]
    else parts[0] + sep + Join(parts[1..], sep)
  }

  /** Joining the pieces of a split with the same separator gives back the string. */
  lemma {:induction false} JoinSplit(s: string, sep: string)
    requires sep != []
    ensures Join(Split(s, sep), sep) == s
    decreases |s|
  {
    match IndexOf(s, sep)
    case None =>
      assert Split(s, sep) == [s];
    case Some(i) =>
      var rest := s[i + |sep|..];
      JoinSplit(rest, sep);
      SplitStep(s, sep, i);
      JoinCons(s[..i], Split(rest, sep), sep);
      assert s == s[..i] + sep + rest;
  }

  /** Number of occurrences of the character `c` in `s`. */
  function CountChar(s: string, c: char): nat {
    if s == [] then 0 else (if s[0] == c then 1 else 0) + CountChar(s[1..], c)
  }

  lemma {:induction false} CountCharAppend(a: string, b: string, c: char)
    ensures CountChar(a + b, c) == CountChar(a, c) + CountChar(b, c)
    decreases |a|
  {
    if a != [] {
      assert (a + b)[1..] == a[1..] + b;
      CountCharAppend(a[1..], b, c);
    } else {
      assert a + b == b;
    }
  }

  lemma {:induction false} CountCharAbsent(s: string, c: char)
    requires !Contains(s, [c])
    ensures CountChar(s, c) == 0
    decreases |s|
  {
    if s != [] {
      assert !OccursAt(s, [c], 0);
      SuffixOccurrences(s, [c], 1);
      CountCharAbsent(s[1..], c);
    }
  }

  /** Splitting on a one-character separator gives one more piece than there are occurrences. */
  lemma {:induction false} SplitCharCount(s: string, c: char)
    ensures |Split(s, [c])| == CountChar(s, c) + 1
    decreases |s|
  {
    var parts := Split(s, [c]);
    match IndexOf(s, [c])
    case None =>
      CountCharAbsent(s, c);
    case Some(i) =>
      var rest := s[i + 1..];
      SplitCharCount(rest, c);
      SplitStep(s, [c], i);
      assert parts[1..] == Split(rest, [c]);
      SplitHead(s, [c]);
      CountCharAbsent(parts[0], c);
      assert s == parts[0] + [c] + rest;
      CountCharAppend(parts[0] + [c], rest, c);
      CountCharAppend(parts[0], [c], c);
  }

  /**
   * `s.replace(new RegExp(p, 'g'), '')` for a pattern without regular-expression
   * metacharacters: every non-overlapping occurrence, found left to right, is removed.
   */
  function RemoveAll(s: string, p: string): (r: string)
    requires p != []
    decreases |s|
    ensures |r| <= |s|
    ensures forall c :: c in r ==> c in s
  {
    if s == [] then []
    else if OccursAt(s, p, 0) then RemoveAll(s[|p|..], p)
    else [s[0]] + RemoveAll(s[1..], p)
  }

  /** Joining a piece in front of at least one more. */
  lemma JoinCons(x: string, rest: seq<string>, sep: string)
    requires rest != []
    ensures Join([x] + rest, sep) == x + sep + Join(rest, sep)
  {
    assert ([x] + rest)[1..] == rest;
  }

  /** A non-empty prefix is the first character followed by a prefix of the rest. */
  lemma PrefixAfterHead(s: string, i: nat)
    requires 1 <= i <= |s|
    ensures s[..i] == [s[0]] + s[1..][..i - 1]
  {
  }

  /** A suffix of the rest is a suffix of the whole. */
  lemma SuffixAfterHead(s: string, k: nat)
    requires 1 <= k <= |s|
    ensures s[1..][k - 1..] == s[k..]
  {
  }

  /** Where `p` does not occur, nothing is removed. */
  lemma {:induction false} RemoveAllNone(s: string, p: string)
    requires p != []
    requires forall j :: 0 <= j ==> !OccursAt(s, p, j)
    ensures RemoveAll(s, p) == s
    decreases |s|
  {
    if s != [] {
      SuffixOccurrences(s, p, 1);
      RemoveAllNone(s[1..], p);
    }
  }

  /** Past a first character that starts no occurrence, the first occurrence moves one place left. */
  lemma FirstOccurrenceOfTail(s: string, p: string, i: nat)
    requires 0 < i && OccursAt(s, p, i)
    requires forall j :: 0 <= j < i ==> !OccursAt(s, p, j)
    ensures OccursAt(s[1..], p, i - 1)
    ensures forall j :: 0 <= j < i - 1 ==> !OccursAt(s[1..], p, j)
  {
    SuffixOccurrences(s, p, 1);
    assert OccursAt(s, p, (i - 1) + 1);
    forall j | 0 <= j < i - 1
      ensures !OccursAt(s[1..], p, j)
    {
      assert !OccursAt(s, p, j + 1);
    }
  }

  /** Up to the first occurrence of `p`, at `i`, the text is kept; the occurrence is dropped. */
  lemma {:induction false} RemoveAllUpTo(s: string, p: string, i: nat)
    requires p != [] && OccursAt(s, p, i)
    requires forall j :: 0 <= j < i ==> !OccursAt(s, p, j)
    ensures RemoveAll(s, p) == s[..i] + RemoveAll(s[i + |p|..], p)
  {
    if i > 0 {
      var t := s[1..];
      assert RemoveAll(s, p) == [s[0]] + RemoveAll(t, p) by {
        assert !OccursAt(s, p, 0);
      }
      FirstOccurrenceOfTail(s, p, i);
      RemoveAllUpTo(t, p, i - 1);
      SuffixAfterHead(s, i + |p|);
      PrefixAfterHead(s, i);
      AppendAssoc([s[0]], t[..i - 1], RemoveAll(s[i + |p|..], p));
    }
  }

  /** Concatenation regroups. */
  lemma AppendAssoc(a: string, b: string, c: string)
    ensures a + (b + c) == (a + b) + c
  {
  }

  /** Removing every occurrence is splitting at them and joining with nothing in between. */
  lemma {:induction false} RemoveAllIsSplitJoin(s: string, p: string)
    requires p != []
    ensures RemoveAll(s, p) == Join(Split(s, p), "")
    decreases |s|
  {
    IndexOfFromFirst(s, p, 0);
    match IndexOf(s, p)
    case None =>
      RemoveAllNone(s, p);
      assert Split(s, p) == [s];
    case Some(i) =>
      var rest := s[i + |p|..];
      RemoveAllUpTo(s, p, i);
      RemoveAllIsSplitJoin(rest, p);
      SplitStep(s, p, i);
      JoinCons(s[..i], Split(rest, p), "");
      assert s[..i] + "" == s[..i];
  }

  /** A string in which `p` does not occur is left as it is. */
  lemma RemoveAllAbsent(s: string, p: string)
    requires p != []
    ensures !Contains(s, p) ==> RemoveAll(s, p) == s
  {
    RemoveAllIsSplitJoin(s, p);
    if !Contains(s, p) {
      SplitHead(s, p);
    }
  }
}
